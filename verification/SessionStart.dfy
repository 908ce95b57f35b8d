/**
 * Starting and stopping the dev session of one workload.
 *
 * A start checks twice whether it has been cancelled before it asks tmux for a session, and once more when tmux
 * has answered; a stop pauses the workload, bumps its generation and kills the session. Any number of starts,
 * manual or automatic, and of stops may be under way at once; each await is a point where others run.
 *
 * `tmux kill-session` leaves no session of the name, whether or not it found one.
 */
module SessionStart {
  import opened Basics

  datatype Pc =
    // start()
    | Checking          // awaiting the prerequisites
    | Preparing         // awaiting authentication, credentials, namespace and ownership
    | Launching         // new-session is on its way to tmux
    | Launched          // tmux has answered, whether or not it created the session
    | Cancelling        // the cancelled start's kill-session is on its way
    // stopSession()
    | Claiming          // awaiting ownership
    | Stopping          // paused and bumped; kill-session is on its way
    // settled
    | Running           // the start has gone on to report what tmux answered
    | Over

  /** `generation` is what a start read when it began. */
  datatype Call = Call(generation: nat, pc: Pc)

  datatype State = State(paused: bool, generation: nat, session: bool, calls: map<nat, Call>)

  datatype Event =
    | BeginStart(call: nat, automatic: bool)
    | BeginStop(call: nat)
    | Step(call: nat)
    | Refused(call: nat)      // a prerequisite, credential, claim or tmux says no
    | SessionGone             // killed by retirement, another verb or the user, or exited

  predicate IsStart(pc: Pc) {
    pc.Checking? || pc.Preparing? || pc.Launching? || pc.Launched? || pc.Cancelling?
  }

  predicate Settled(pc: Pc) { pc.Running? || pc.Over? }

  predicate Enabled(s: State, e: Event) {
    match e
    case BeginStart(id, _) => id !in s.calls
    case BeginStop(id) => id !in s.calls
    case Step(id) => id in s.calls && !Settled(s.calls[id].pc)
    case Refused(id) => id in s.calls && (s.calls[id].pc.Checking? || s.calls[id].pc.Preparing? || s.calls[id].pc.Launching? || s.calls[id].pc.Claiming?)
    case SessionGone => true
  }

  /** The `cancelled()` closure of a start. */
  predicate Cancelled(s: State, c: Call) {
    s.paused || c.generation != s.generation
  }

  function Goto(s: State, id: nat, pc: Pc): State
    requires id in s.calls
  {
    s.(calls := s.calls[id := s.calls[id].(pc := pc)])
  }

  function StepState(s: State, id: nat): State
    requires Enabled(s, Step(id))
  {
    var c := s.calls[id];
    match c.pc
    case Checking => Goto(s, id, if Cancelled(s, c) then Over else Preparing)
    case Preparing => Goto(s, id, if Cancelled(s, c) then Over else Launching)
    case Launching => Goto(s, id, Launched).(session := true)
    case Launched => Goto(s, id, if Cancelled(s, c) then Cancelling else Running)
    case Cancelling => Goto(s, id, Over).(session := false)
    case Claiming => Goto(s, id, Stopping).(paused := true, generation := s.generation + 1)
    case Stopping => Goto(s, id, Over).(session := false)
  }

  function Apply(s: State, e: Event): State
    requires Enabled(s, e)
  {
    match e
    case BeginStart(id, automatic) =>
      s.(paused := s.paused && automatic, calls := s.calls[id := Call(s.generation, Checking)])
    case BeginStop(id) => s.(calls := s.calls[id := Call(s.generation, Claiming)])
    case Step(id) => StepState(s, id)
    case Refused(id) => Goto(s, id, if s.calls[id].pc.Launching? then Launched else Over)
    case SessionGone => s.(session := false)
  }

  predicate Init(s: State) { s.calls == map[] && s.generation == 0 }

  predicate Follows(s: State, e: Event, t: State) { Enabled(s, e) && t == Apply(s, e) }

  ghost predicate Run(states: seq<State>, events: seq<Event>) {
    && |states| == |events| + 1
    && Init(states[0])
    && forall k :: 0 <= k < |events| ==> Follows(states[k], events[k], states[k + 1])
  }

  // ---- After a stop, no session is left behind ----

  /** This call will still kill the session before it settles, if the workload stays paused. */
  predicate WillKill(pc: Pc) { pc.Launched? || pc.Cancelling? || pc.Stopping? }

  /** The workload is paused, and any session it has is about to be killed by some call. */
  ghost predicate StoppedOrOwed(s: State) {
    s.paused && (s.session ==> exists id :: id in s.calls && WillKill(s.calls[id].pc))
  }

  lemma PauseOwes(s: State, id: nat)
    requires Enabled(s, Step(id)) && s.calls[id].pc.Claiming?
    ensures StoppedOrOwed(Apply(s, Step(id)))
  {
    assert WillKill(Apply(s, Step(id)).calls[id].pc);
  }

  lemma OwedStep(s: State, e: Event)
    requires StoppedOrOwed(s) && Enabled(s, e) && !(e.BeginStart? && !e.automatic)
    ensures StoppedOrOwed(Apply(s, e))
  {
    var t := Apply(s, e);
    if t.session {
      if e.Step? && s.calls[e.call].pc.Launching? {
        assert WillKill(t.calls[e.call].pc);
      } else {
        var id :| id in s.calls && WillKill(s.calls[id].pc);
        assert WillKill(t.calls[id].pc);
      }
    }
  }

  /** `events[p]` is the step in which a stop pauses the workload and bumps its generation. */
  ghost predicate PausesAt(states: seq<State>, events: seq<Event>, p: nat)
    requires |states| == |events| + 1
  {
    p < |events| && events[p].Step? && events[p].call in states[p].calls && states[p].calls[events[p].call].pc.Claiming?
  }

  lemma {:induction false} OwedFromPauseOn(states: seq<State>, events: seq<Event>, p: nat, k: nat)
    requires Run(states, events) && PausesAt(states, events, p) && p < k < |states|
    requires forall j :: p < j < k ==> !(events[j].BeginStart? && !events[j].automatic)
    ensures StoppedOrOwed(states[k])
    decreases k
  {
    assert Follows(states[k - 1], events[k - 1], states[k]);
    if k == p + 1 {
      PauseOwes(states[p], events[p].call);
    } else {
      OwedFromPauseOn(states, events, p, k - 1);
      OwedStep(states[k - 1], events[k - 1]);
    }
  }

  /** Once a stop has paused the workload and no manual start has begun since, no tmux session exists whenever
      every start and stop has settled, wherever each was when the stop came. */
  lemma NoSessionAfterStop(states: seq<State>, events: seq<Event>, p: nat, k: nat)
    requires Run(states, events) && PausesAt(states, events, p) && p < k < |states|
    requires forall j :: p < j < k ==> !(events[j].BeginStart? && !events[j].automatic)
    requires forall id :: id in states[k].calls ==> Settled(states[k].calls[id].pc)
    ensures !states[k].session
  {
    OwedFromPauseOn(states, events, p, k);
  }

  /** Meanwhile only a start whose request to tmux was already out can still create a session. */
  lemma {:induction false} NoNewLaunch(states: seq<State>, events: seq<Event>, p: nat, k: nat, id: nat)
    requires Run(states, events) && PausesAt(states, events, p) && p < k < |states|
    requires forall j :: p < j < k ==> !(events[j].BeginStart? && !events[j].automatic)
    requires id in states[k].calls && states[k].calls[id].pc.Launching?
    ensures id in states[p].calls && states[p].calls[id].pc.Launching?
    decreases k
  {
    assert Follows(states[k - 1], events[k - 1], states[k]);
    if k > p + 1 {
      OwedFromPauseOn(states, events, p, k - 1);
      NoNewLaunch(states, events, p, k - 1, id);
    }
  }

  // ---- The generation outlives the pause ----

  ghost predicate GenerationsOk(s: State) {
    forall id :: id in s.calls ==> s.calls[id].generation <= s.generation
  }

  lemma {:induction false} RunGenerations(states: seq<State>, events: seq<Event>, k: nat)
    requires Run(states, events) && k < |states|
    ensures GenerationsOk(states[k])
  {
    if k > 0 {
      RunGenerations(states, events, k - 1);
      assert Follows(states[k - 1], events[k - 1], states[k]);
    }
  }

  /** The standing of a start that a stop has overtaken: its generation is spent and it has not reported. */
  predicate Overtaken(s: State, id: nat) {
    id in s.calls && s.calls[id].generation < s.generation && !s.calls[id].pc.Running?
  }

  lemma OvertakenStep(s: State, e: Event, id: nat)
    requires Overtaken(s, id) && Enabled(s, e)
    ensures Overtaken(Apply(s, e), id)
  {
  }

  lemma OvertakenNext(s: State, e: Event, t: State, id: nat)
    requires Overtaken(s, id) && Follows(s, e, t)
    ensures Overtaken(t, id)
  {
    OvertakenStep(s, e, id);
  }

  lemma {:induction false} OvertakenForGood(states: seq<State>, events: seq<Event>, j: nat, k: nat, id: nat)
    requires Run(states, events) && j <= k < |states| && Overtaken(states[j], id)
    ensures Overtaken(states[k], id)
    decreases k
  {
    if j < k {
      OvertakenForGood(states, events, j, k - 1, id);
      OvertakenNext(states[k - 1], events[k - 1], states[k], id);
    }
  }

  /** A start that was under way when a stop paused the workload never reports a running session, even when
      later manual starts lift the pause. */
  lemma OvertakenStartNeverRuns(states: seq<State>, events: seq<Event>, p: nat, k: nat, id: nat)
    requires Run(states, events) && PausesAt(states, events, p) && p < k < |states|
    requires id in states[p].calls && IsStart(states[p].calls[id].pc)
    ensures id in states[k].calls && !states[k].calls[id].pc.Running?
  {
    RunGenerations(states, events, p);
    assert Follows(states[p], events[p], states[p + 1]);
    assert Overtaken(states[p + 1], id);
    OvertakenForGood(states, events, p + 1, k, id);
  }
}
