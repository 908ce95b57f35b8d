/**
 * The leader lease of the sandbox controllers.
 *
 * N daemons compete for one ConfigMap that names its holder and the time of its last renewal. A renewal reads
 * the record, decides, and writes it back with a compare-and-swap on `resourceVersion`. Reads, writes and
 * their responses may be delayed without bound, writes may lose the compare-and-swap, and a write of a process
 * that has died may still reach the cluster. All daemons read one clock that never runs backwards.
 */
module LeaderLease {
  import opened Basics

  const LEASE_MS := 90_000

  datatype Record = Record(version: nat, holder: nat, renewedAt: int)

  /** A patch (or, without a version, a create) on its way to the cluster. */
  datatype Write = Write(holder: nat, now: int, version: Option<nat>)

  /** Where renew() stands. `Reply` states: the call has been decided by the cluster, its response is under way. */
  datatype Renewal =
    | Idle
    | Opening                             // awaiting the namespace
    | Reading
    | ReadReply(seen: Option<Record>)
    | Writing(write: Write)
    | WriteReply(now: int)
    | ErrorReply

  /** The fields of one controller. `renewedAt` is None until the first successful renewal. */
  datatype Controller = Controller(
    running: bool,
    isLeader: bool,
    holder: Option<nat>,
    renewedAt: Option<int>,
    renewal: Renewal)

  const FRESH := Controller(false, false, None, None, Idle)

  // ---- The code of one controller between awaits ----

  /** leader(): what run() checks before every action. */
  predicate Leading(c: Controller, now: int) {
    c.running && c.isLeader && c.renewedAt.Some? && now - c.renewedAt.value < LEASE_MS
  }

  function OnStart(c: Controller): Controller { c.(running := true) }

  function OnStop(c: Controller): Controller { c.(running := false, isLeader := false) }

  function OnTick(c: Controller): Controller {
    if c.running && c.renewal.Idle? then c.(renewal := Opening) else c
  }

  function OnOpened(c: Controller): Controller {
    c.(renewal := if c.running then Reading else Idle)
  }

  function OnRead(c: Controller, me: nat, seen: Option<Record>, now: int): Controller {
    if !c.running then c.(renewal := Idle)
    else
      match seen
      case None => c.(renewal := Writing(Write(me, now, None)))
      case Some(lock) =>
        if lock.holder != me && now - lock.renewedAt <= LEASE_MS
        then c.(holder := Some(lock.holder), isLeader := false, renewal := Idle)
        else c.(holder := Some(lock.holder), renewal := Writing(Write(me, now, Some(lock.version))))
  }

  function OnWritten(c: Controller, me: nat, now: int): Controller {
    c.(holder := Some(me), renewedAt := Some(now), isLeader := c.running, renewal := Idle)
  }

  function OnError(c: Controller): Controller { c.(isLeader := false, renewal := Idle) }

  // ---- All controllers and the cluster ----

  datatype State = State(
    clock: int,
    lock: Option<Record>,
    nextVersion: nat,
    controllers: map<nat, Controller>,
    orphans: set<Write>)

  datatype Event =
    | Elapse(ms: nat)
    | Start(id: nat)
    | Stop(id: nat)
    | Crash(id: nat)            // a new process takes the same instance id
    | Tick(id: nat)
    | Opened(id: nat)
    | ReadAtCluster(id: nat)
    | ReadDelivered(id: nat)
    | WriteAtCluster(id: nat)
    | WriteDelivered(id: nat)
    | CallFailed(id: nat)       // the call did not apply
    | ErrorDelivered(id: nat)
    | Act(id: nat)              // run() acts on one sandbox, right after leader() has said yes
    | OrphanAtCluster(write: Write)
    | OrphanLost(write: Write)

  predicate Enabled(s: State, e: Event) {
    match e
    case Elapse(_) => true
    case Start(id) => id in s.controllers
    case Stop(id) => id in s.controllers
    case Crash(id) => id in s.controllers
    case Tick(id) => id in s.controllers
    case Opened(id) => id in s.controllers && s.controllers[id].renewal.Opening?
    case ReadAtCluster(id) => id in s.controllers && s.controllers[id].renewal.Reading?
    case ReadDelivered(id) => id in s.controllers && s.controllers[id].renewal.ReadReply?
    case WriteAtCluster(id) => id in s.controllers && s.controllers[id].renewal.Writing?
    case WriteDelivered(id) => id in s.controllers && s.controllers[id].renewal.WriteReply?
    case CallFailed(id) => id in s.controllers && (s.controllers[id].renewal.Opening? || s.controllers[id].renewal.Reading? || s.controllers[id].renewal.Writing?)
    case ErrorDelivered(id) => id in s.controllers && s.controllers[id].renewal.ErrorReply?
    case Act(id) => id in s.controllers && Leading(s.controllers[id], s.clock)
    case OrphanAtCluster(w) => w in s.orphans
    case OrphanLost(w) => w in s.orphans
  }

  /** Whether the cluster accepts the write: create on absence, patch on the very version that was read. */
  predicate Accepts(s: State, w: Write) {
    match w.version
    case None => s.lock.None?
    case Some(v) => s.lock.Some? && s.lock.value.version == v
  }

  function Commit(s: State, w: Write): State {
    s.(lock := Some(Record(s.nextVersion, w.holder, w.now)), nextVersion := s.nextVersion + 1)
  }

  function Set(s: State, id: nat, c: Controller): State {
    s.(controllers := s.controllers[id := c])
  }

  function Apply(s: State, e: Event): State
    requires Enabled(s, e)
  {
    match e
    case Elapse(ms) => s.(clock := s.clock + ms)
    case Start(id) => Set(s, id, OnStart(s.controllers[id]))
    case Stop(id) => Set(s, id, OnStop(s.controllers[id]))
    case Crash(id) =>
      var r := s.controllers[id].renewal;
      Set(s, id, FRESH).(orphans := s.orphans + if r.Writing? then {r.write} else {})
    case Tick(id) => Set(s, id, OnTick(s.controllers[id]))
    case Opened(id) => Set(s, id, OnOpened(s.controllers[id]))
    case ReadAtCluster(id) => Set(s, id, s.controllers[id].(renewal := ReadReply(s.lock)))
    case ReadDelivered(id) => Set(s, id, OnRead(s.controllers[id], id, s.controllers[id].renewal.seen, s.clock))
    case WriteAtCluster(id) =>
      var w := s.controllers[id].renewal.write;
      if Accepts(s, w)
      then Set(Commit(s, w), id, s.controllers[id].(renewal := WriteReply(w.now)))
      else Set(s, id, s.controllers[id].(renewal := ErrorReply))
    case WriteDelivered(id) => Set(s, id, OnWritten(s.controllers[id], id, s.controllers[id].renewal.now))
    case CallFailed(id) => Set(s, id, s.controllers[id].(renewal := ErrorReply))
    case ErrorDelivered(id) => Set(s, id, OnError(s.controllers[id]))
    case Act(_) => s
    case OrphanAtCluster(w) =>
      (if Accepts(s, w) then Commit(s, w) else s).(orphans := s.orphans - {w})
    case OrphanLost(w) => s.(orphans := s.orphans - {w})
  }

  predicate Init(s: State) {
    s.lock.None? && s.orphans == {} && forall id :: id in s.controllers ==> s.controllers[id] == FRESH
  }

  // ---- Invariant ----

  /** The record still shows `id`'s renewal of time `r`, or a later one of its own, or was taken over when
      that renewal had already run out. */
  predicate Covers(lock: Option<Record>, id: nat, r: int) {
    && lock.Some?
    && if lock.value.holder == id then r <= lock.value.renewedAt else r + LEASE_MS < lock.value.renewedAt
  }

  /** A write that the cluster would still accept renews its own record or takes over one that ran out. */
  predicate WriteOk(s: State, w: Write) {
    && w.now <= s.clock
    && (w.version.Some? ==> w.version.value < s.nextVersion)
    && (w.version.Some? && s.lock.Some? && s.lock.value.version == w.version.value ==>
          && s.lock.value.renewedAt <= w.now
          && (s.lock.value.holder != w.holder ==> s.lock.value.renewedAt + LEASE_MS < w.now))
  }

  predicate ControllerOk(s: State, id: nat)
    requires id in s.controllers
  {
    var c := s.controllers[id];
    && (c.renewedAt.Some? ==> c.renewedAt.value <= s.clock && Covers(s.lock, id, c.renewedAt.value))
    && match c.renewal
       case ReadReply(seen) =>
         seen.Some? ==>
           && seen.value.version < s.nextVersion && seen.value.renewedAt <= s.clock
           && (s.lock.Some? && s.lock.value.version == seen.value.version ==> s.lock == seen)
       case Writing(w) => w.holder == id && WriteOk(s, w)
       case WriteReply(now) => now <= s.clock && Covers(s.lock, id, now)
       case _ => true
  }

  predicate LockOk(s: State) {
    s.lock.Some? ==> s.lock.value.version < s.nextVersion && s.lock.value.renewedAt <= s.clock
  }

  ghost predicate Inv(s: State) {
    && LockOk(s)
    && (forall id :: id in s.controllers ==> ControllerOk(s, id))
    && (forall w :: w in s.orphans ==> WriteOk(s, w))
  }

  /** The write an event brings to the cluster, if any. */
  function Incoming(s: State, e: Event): Option<Write>
    requires Enabled(s, e)
  {
    match e
    case WriteAtCluster(id) => Some(s.controllers[id].renewal.write)
    case OrphanAtCluster(w) => Some(w)
    case _ => None
  }

  /** The controller an event belongs to, if it belongs to one. */
  function Actor(e: Event): Option<nat> {
    match e
    case Elapse(_) => None
    case OrphanAtCluster(_) => None
    case OrphanLost(_) => None
    case _ => Some(e.id)
  }

  /** Time passing and writes of dead processes. */
  lemma OutsideStep(s: State, e: Event, id: nat)
    requires Enabled(s, e) && Actor(e).None? && id in s.controllers && ControllerOk(s, id) && LockOk(s)
    requires Incoming(s, e).Some? ==> WriteOk(s, Incoming(s, e).value)
    ensures ControllerOk(Apply(s, e), id)
  {
  }

  /** A controller's own events, except those at the cluster. */
  lemma OwnStep(s: State, e: Event, id: nat)
    requires Enabled(s, e) && Actor(e) == Some(id) && !e.ReadAtCluster? && !e.WriteAtCluster?
    requires ControllerOk(s, id) && LockOk(s)
    ensures ControllerOk(Apply(s, e), id)
  {
  }

  /** Its calls at the cluster. */
  lemma ClusterStep(s: State, e: Event, id: nat)
    requires Enabled(s, e) && Actor(e) == Some(id) && (e.ReadAtCluster? || e.WriteAtCluster?)
    requires ControllerOk(s, id) && LockOk(s)
    ensures ControllerOk(Apply(s, e), id)
  {
  }

  /** Another controller's events: only its writes matter. */
  lemma OtherStep(s: State, e: Event, id: nat)
    requires Enabled(s, e) && Actor(e).Some? && Actor(e) != Some(id) && id in s.controllers && ControllerOk(s, id) && LockOk(s)
    requires e.WriteAtCluster? ==> ControllerOk(s, e.id)
    ensures ControllerOk(Apply(s, e), id)
  {
  }

  lemma ControllerStep(s: State, e: Event, id: nat)
    requires Enabled(s, e) && id in Apply(s, e).controllers
    requires id in s.controllers && ControllerOk(s, id) && LockOk(s)
    requires Incoming(s, e).Some? ==> WriteOk(s, Incoming(s, e).value)
    requires e.WriteAtCluster? ==> ControllerOk(s, e.id)
    ensures ControllerOk(Apply(s, e), id)
  {
    if Actor(e).None? { OutsideStep(s, e, id); }
    else if Actor(e) != Some(id) { OtherStep(s, e, id); }
    else if e.ReadAtCluster? || e.WriteAtCluster? { ClusterStep(s, e, id); }
    else { OwnStep(s, e, id); }
  }

  lemma WriteStep(s: State, e: Event, w: Write)
    requires Enabled(s, e) && WriteOk(s, w) && LockOk(s)
    ensures WriteOk(Apply(s, e), w)
  {
  }

  lemma InvStep(s: State, e: Event)
    requires Inv(s) && Enabled(s, e)
    ensures Inv(Apply(s, e))
  {
    var t := Apply(s, e);
    forall id | id in t.controllers ensures ControllerOk(t, id) {
      assert ControllerOk(s, id);
      if e.WriteAtCluster? { assert ControllerOk(s, e.id); }
      ControllerStep(s, e, id);
    }
    forall w | w in t.orphans ensures WriteOk(t, w) {
      if w in s.orphans {
        WriteStep(s, e, w);
      } else {
        assert ControllerOk(s, e.id);
      }
    }
  }

  /** One entry per state and per event between two states. */
  ghost predicate Run(states: seq<State>, events: seq<Event>) {
    && |states| == |events| + 1
    && Init(states[0])
    && forall k :: 0 <= k < |events| ==> Enabled(states[k], events[k]) && states[k + 1] == Apply(states[k], events[k])
  }

  lemma {:induction false} RunKeepsInv(states: seq<State>, events: seq<Event>, k: nat)
    requires Run(states, events) && k < |states|
    ensures Inv(states[k])
  {
    if k > 0 {
      RunKeepsInv(states, events, k - 1);
      InvStep(states[k - 1], events[k - 1]);
    }
  }

  // ---- What the lease promises, in every run ----

  /** At no instant do two controllers act as leader, and the leader is the holder the cluster records. */
  lemma AtMostOneLeader(states: seq<State>, events: seq<Event>, k: nat, a: nat, b: nat)
    requires Run(states, events) && k < |states|
    requires a in states[k].controllers && Leading(states[k].controllers[a], states[k].clock)
    requires b in states[k].controllers && Leading(states[k].controllers[b], states[k].clock)
    ensures a == b
    ensures states[k].lock.Some? && states[k].lock.value.holder == a
  {
    RunKeepsInv(states, events, k);
    assert ControllerOk(states[k], a) && ControllerOk(states[k], b);
  }

  /** One step: the record stays, its time never goes back, and a new holder waits out the old one's lease. */
  lemma LockStep(s: State, e: Event)
    requires Inv(s) && Enabled(s, e) && s.lock.Some?
    ensures
      var t := Apply(s, e);
      && t.lock.Some? && s.lock.value.renewedAt <= t.lock.value.renewedAt && s.clock <= t.clock
      && (t.lock.value.holder != s.lock.value.holder ==> s.lock.value.renewedAt + LEASE_MS < t.lock.value.renewedAt)
  {
    if e.WriteAtCluster? { assert ControllerOk(s, e.id); }
  }

  lemma {:induction false} RenewedAtNeverDecreases(states: seq<State>, events: seq<Event>, j: nat, k: nat)
    requires Run(states, events) && j <= k < |states| && states[j].lock.Some?
    ensures states[k].lock.Some? && states[j].lock.value.renewedAt <= states[k].lock.value.renewedAt
    ensures states[j].clock <= states[k].clock
    decreases k
  {
    if j < k {
      RenewedAtNeverDecreases(states, events, j, k - 1);
      RunKeepsInv(states, events, k - 1);
      LockStep(states[k - 1], events[k - 1]);
    }
  }

  lemma {:induction false} StaysCovered(states: seq<State>, events: seq<Event>, j: nat, k: nat, a: nat, r: int)
    requires Run(states, events) && j <= k < |states| && Covers(states[j].lock, a, r)
    ensures Covers(states[k].lock, a, r)
    decreases k
  {
    if j < k {
      StaysCovered(states, events, j, k - 1, a, r);
      RunKeepsInv(states, events, k - 1);
      LockStep(states[k - 1], events[k - 1]);
    }
  }

  /** Leadership passes on only after the full lease: whoever leads later than `a` does so more than LEASE_MS
      after the renewal `a` was acting on, whatever became of `a`, its process and its pending calls. */
  lemma SuccessorWaitsOutTheLease(states: seq<State>, events: seq<Event>, j: nat, k: nat, a: nat, b: nat)
    requires Run(states, events) && j <= k < |states| && a != b
    requires a in states[j].controllers && Leading(states[j].controllers[a], states[j].clock)
    requires b in states[k].controllers && Leading(states[k].controllers[b], states[k].clock)
    ensures states[j].controllers[a].renewedAt.value + LEASE_MS < states[k].clock
  {
    RunKeepsInv(states, events, j);
    assert ControllerOk(states[j], a);
    StaysCovered(states, events, j, k, a, states[j].controllers[a].renewedAt.value);
    AtMostOneLeader(states, events, k, b, b);
    RunKeepsInv(states, events, k);
  }

  /** Every action on a sandbox falls at an instant when no other controller leads and the cluster records the
      actor as holder; and any later action of another controller comes more than LEASE_MS after the renewal
      that the earlier actor relied on. */
  lemma ActionsHaveNoRival(states: seq<State>, events: seq<Event>, j: nat, k: nat, other: nat)
    requires Run(states, events) && j <= k < |events| && events[j].Act? && events[k].Act?
    ensures events[j].id in states[j].controllers && states[j].lock.Some? && states[j].lock.value.holder == events[j].id
    ensures other in states[j].controllers && other != events[j].id ==> !Leading(states[j].controllers[other], states[j].clock)
    ensures events[j].id != events[k].id ==>
              var renewedAt := states[j].controllers[events[j].id].renewedAt;
              renewedAt.Some? && renewedAt.value + LEASE_MS < states[k].clock
  {
    var a, b := events[j].id, events[k].id;
    assert Enabled(states[j], events[j]) && Enabled(states[k], events[k]);
    AtMostOneLeader(states, events, j, a, a);
    if other in states[j].controllers && Leading(states[j].controllers[other], states[j].clock) {
      AtMostOneLeader(states, events, j, a, other);
    }
    if a != b { SuccessorWaitsOutTheLease(states, events, j, k, a, b); }
  }

  // ---- The controller object ----

  /** What run() looks at in one sandbox; `busy` is an active operation on it. */
  datatype Sandbox = Sandbox(key: string, personal: bool, leased: bool, busy: bool, awake: bool, lastUsedAt: int)

  datatype Action = Expire(key: string) | Sleep(key: string)

  const HOUR_MS := 60 * 60_000
  const IDLE_MS := 30 * 60_000

  /** What the controller does to one sandbox: at most one action, expiry (hourly sweeps only) before sleep. */
  function Verdict(s: Sandbox, now: int, ttl: int, sweep: bool): seq<Action> {
    if s.personal || !s.leased || s.busy then []
    else if sweep && now - s.lastUsedAt >= ttl then [Expire(s.key)]
    else if s.awake && now - s.lastUsedAt > IDLE_MS then [Sleep(s.key)]
    else []
  }

  function Verdicts(list: seq<Sandbox>, now: int, ttl: int, sweep: bool): seq<Action> {
    if list == [] then []
    else Verdicts(list[..|list| - 1], now, ttl, sweep) + Verdict(list[|list| - 1], now, ttl, sweep)
  }

  lemma VerdictsNext(list: seq<Sandbox>, k: nat, now: int, ttl: int, sweep: bool)
    requires k < |list|
    ensures Verdicts(list[..k + 1], now, ttl, sweep) == Verdicts(list[..k], now, ttl, sweep) + Verdict(list[k], now, ttl, sweep)
  {
    assert list[..k + 1][..k] == list[..k];
  }

  class SandboxController {
    const me: nat
    var running: bool
    var isLeader: bool
    var holder: Option<nat>
    var renewedAt: Option<int>
    var renewal: Renewal
    var lastPollAt: Option<int>
    var lastSweepAt: Option<int>

    function State(): Controller
      reads this
    {
      Controller(running, isLeader, holder, renewedAt, renewal)
    }

    constructor (me: nat)
      ensures State() == FRESH && this.me == me && lastPollAt == None && lastSweepAt == None
    {
      this.me := me;
      running, isLeader, holder, renewedAt, renewal := false, false, None, None, Idle;
      lastPollAt, lastSweepAt := None, None;
    }

    method Start()
      modifies this`running
      ensures State() == OnStart(old(State()))
    {
      running := true;
    }

    method Stop()
      modifies this`running, this`isLeader
      ensures State() == OnStop(old(State()))
    {
      running := false;
      isLeader := false;
    }

    method Leader(now: int) returns (leads: bool)
      ensures leads == Leading(State(), now)
    {
      leads := running && isLeader && renewedAt.Some? && now - renewedAt.value < LEASE_MS;
    }

    method Tick()
      modifies this`renewal
      ensures State() == OnTick(old(State()))
    {
      if !running { return; }
      if renewal.Idle? { renewal := Opening; }
    }

    method NamespaceDelivered()
      requires renewal.Opening?
      modifies this`renewal
      ensures State() == OnOpened(old(State()))
    {
      renewal := if running then Reading else Idle;
    }

    /** renew(), from the response of the read to the write it issues. */
    method ReadDelivered(now: int)
      requires renewal.ReadReply?
      modifies this`renewal, this`holder, this`isLeader
      ensures State() == OnRead(old(State()), me, old(renewal).seen, now)
    {
      var seen := renewal.seen;
      if !running {
        renewal := Idle;
        return;
      }
      if seen.None? {
        renewal := Writing(Write(me, now, None));
      } else {
        holder := Some(seen.value.holder);
        if seen.value.holder != me && now - seen.value.renewedAt <= LEASE_MS {
          isLeader := false;
          renewal := Idle;
          return;
        }
        renewal := Writing(Write(me, now, Some(seen.value.version)));
      }
    }

    method WriteDelivered()
      requires renewal.WriteReply?
      modifies this`renewal, this`holder, this`isLeader, this`renewedAt
      ensures State() == OnWritten(old(State()), me, old(renewal).now)
    {
      holder := Some(me);
      renewedAt := Some(renewal.now);
      isLeader := running;
      renewal := Idle;
    }

    method ErrorDelivered()
      modifies this`renewal, this`isLeader
      ensures State() == OnError(old(State()))
    {
      isLeader := false;
      renewal := Idle;
    }

    /** One turn of the loop: at most one action. */
    static method ActOn(s: Sandbox, now: int, ttl: int, sweep: bool) returns (actions: seq<Action>)
      ensures actions == Verdict(s, now, ttl, sweep)
    {
      if s.personal || !s.leased { return []; }
      if s.busy { return []; }
      if sweep && now - s.lastUsedAt >= ttl { return [Expire(s.key)]; }
      if s.awake && now - s.lastUsedAt > IDLE_MS { return [Sleep(s.key)]; }
      return [];
    }

    /** run() after the list arrived: no other code of this process runs in between, but time goes on; `clock[k]`
        is what leader() reads before sandbox `k`. It acts on exactly the sandboxes before the first one at
        which it no longer leads, and only a complete pass is recorded as a poll or a sweep. */
    method Run(list: seq<Sandbox>, now: int, ttl: int, clock: seq<int>) returns (actions: seq<Action>, done: nat)
      requires |clock| == |list|
      modifies this`lastPollAt, this`lastSweepAt
      ensures State() == old(State())
      ensures done <= |list| && (forall k :: 0 <= k < done ==> Leading(State(), clock[k]))
      ensures done < |list| ==> !Leading(State(), clock[done])
      ensures
        var sweep := old(lastSweepAt).None? || now - old(lastSweepAt).value >= HOUR_MS;
        && actions == Verdicts(list[..done], now, ttl, sweep)
        && lastPollAt == (if done == |list| then Some(now) else old(lastPollAt))
        && lastSweepAt == (if done == |list| && sweep then Some(now) else old(lastSweepAt))
    {
      var sweep := lastSweepAt.None? || now - lastSweepAt.value >= HOUR_MS;
      actions, done := [], 0;
      while done < |list|
        invariant done <= |list| && forall k :: 0 <= k < done ==> Leading(State(), clock[k])
        invariant actions == Verdicts(list[..done], now, ttl, sweep)
        invariant lastPollAt == old(lastPollAt) && lastSweepAt == old(lastSweepAt) && State() == old(State())
      {
        var leads := Leader(clock[done]);
        if !leads { return; }
        VerdictsNext(list, done, now, ttl, sweep);
        var action := ActOn(list[done], now, ttl, sweep);
        actions := actions + action;
        done := done + 1;
      }
      assert list[..done] == list;
      lastPollAt := Some(now);
      if sweep { lastSweepAt := Some(now); }
    }
  }
}
