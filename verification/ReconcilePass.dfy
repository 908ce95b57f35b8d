/**
 * The per-workload timers of the reconcile loop: how long a session has been seen without pods, and how often a
 * dead session has been reconnected. Both live in Maps keyed by workload and are updated by every pass.
 */
module ReconcilePass {
  import opened Basics

  const STALE_NO_POD_SESSION_MS := 30 * 60 * 1000
  const RECONNECT_COOLDOWN_MS := 60 * 1000
  const RECONNECT_RESET_MS := 5 * 60 * 1000
  const MAX_RECONNECT_ATTEMPTS := 3

  datatype Status = RunningManaged | Restarting | Deployed | Stopped | Other

  datatype Session = Session(dead: bool, createdAt: Option<int>)

  /** What one pass learned about a workload; `status` is derived from it elsewhere, `previous` is the status
      the last pass settled on. */
  datatype Observation = Observation(
    session: Option<Session>,
    unreachable: bool,
    pods: nat,
    deployments: nat,
    status: Status,
    previous: Option<Status>)

  datatype Reconnects = Reconnects(attempts: nat, lastAt: int)

  /** The entries of one workload. */
  datatype Timers = Timers(noPodsSince: Option<int>, reconnects: Option<Reconnects>, transition: bool, paused: bool)

  /** The session was seen, the cluster was reachable and showed no pod. */
  predicate Quiet(o: Observation) {
    o.session.Some? && !o.unreachable && o.pods == 0
  }

  predicate SessionDead(o: Observation) {
    o.session.Some? && o.session.value.dead
  }

  function AfterTimer(t: Timers, o: Observation, now: int): Timers {
    if !Quiet(o) then t.(noPodsSince := None)
    else if t.noPodsSince.None? then t.(noPodsSince := Some(now))
    else t
  }

  /** shouldRetireNoPodSession(). */
  predicate Stale(t: Timers, o: Observation, now: int) {
    && Quiet(o)
    && ((o.session.value.dead && o.deployments > 0) ||
        (&& t.noPodsSince.Some? && now - t.noPodsSince.value >= STALE_NO_POD_SESSION_MS
         && o.session.value.createdAt.Some? && now - o.session.value.createdAt.value >= STALE_NO_POD_SESSION_MS))
  }

  function Prior(t: Timers): Reconnects {
    if t.reconnects.Some? then t.reconnects.value else Reconnects(0, 0)
  }

  /** The guard of scheduleReconnect(). */
  predicate MayReconnect(t: Timers, now: int) {
    !t.paused && Prior(t).attempts < MAX_RECONNECT_ATTEMPTS && now - Prior(t).lastAt >= RECONNECT_COOLDOWN_MS
  }

  /** What a pass does: retire the session, start a reconnect, or neither. */
  datatype Act = Nothing | Retire | Reconnect

  function Decide(t: Timers, o: Observation, now: int): Act {
    if t.transition then Nothing
    else if Stale(AfterTimer(t, o, now), o, now) then Retire
    else if SessionDead(o) && !o.unreachable && o.pods > 0 && MayReconnect(t, now) then Reconnect
    else Nothing
  }

  /** The status the pass settles on. */
  function Settled(t: Timers, o: Observation, now: int): Status {
    if t.transition then Restarting
    else match Decide(t, o, now)
      case Retire => if o.deployments > 0 then Deployed else Stopped
      case Reconnect => Restarting
      case Nothing =>
        if o.unreachable && !SessionDead(o) && o.previous.Some? && o.previous.value != Restarting
        then o.previous.value else o.status
  }

  /** The timers when the pass has decided; a retirement clears more once the session is gone. */
  function AfterPass(t: Timers, o: Observation, now: int): Timers {
    var u := AfterTimer(t, o, now);
    if Decide(t, o, now) == Reconnect
    then u.(reconnects := Some(Reconnects(Prior(t).attempts + 1, now)), transition := true)
    else if Settled(t, o, now) == RunningManaged && t.reconnects.Some? && now - t.reconnects.value.lastAt >= RECONNECT_RESET_MS
    then u.(reconnects := None)
    else u
  }

  // ---- The service object ----

  class Workloads {
    var noPodsSince: map<string, int>
    var reconnects: map<string, Reconnects>
    var transitions: set<string>
    var paused: set<string>

    function Of(key: string): Timers
      reads this
    {
      Timers(if key in noPodsSince then Some(noPodsSince[key]) else None,
             if key in reconnects then Some(reconnects[key]) else None,
             key in transitions, key in paused)
    }

    method ShouldRetire(key: string, o: Observation, now: int) returns (retire: bool)
      ensures retire == Stale(Of(key), o, now)
    {
      if o.session.None? || o.unreachable || o.pods > 0 { return false; }
      if o.session.value.dead && o.deployments > 0 { return true; }
      if key !in noPodsSince || now - noPodsSince[key] < STALE_NO_POD_SESSION_MS { return false; }
      return o.session.value.createdAt.Some? && now - o.session.value.createdAt.value >= STALE_NO_POD_SESSION_MS;
    }

    method ScheduleReconnect(key: string, now: int) returns (started: bool)
      modifies this`reconnects, this`transitions
      ensures started == MayReconnect(old(Of(key)), now)
      ensures Of(key) == if started
                         then old(Of(key)).(reconnects := Some(Reconnects(Prior(old(Of(key))).attempts + 1, now)), transition := true)
                         else old(Of(key))
      ensures forall other :: other != key ==> Of(other) == old(Of(other))
    {
      if key in paused { return false; }
      var prior := if key in reconnects then reconnects[key] else Reconnects(0, 0);
      if prior.attempts >= MAX_RECONNECT_ATTEMPTS || now - prior.lastAt < RECONNECT_COOLDOWN_MS { return false; }
      reconnects := reconnects[key := Reconnects(prior.attempts + 1, now)];
      transitions := transitions + {key};
      return true;
    }

    /** The first half of the block: the no-pods timer. */
    method NoteQuiet(key: string, o: Observation, now: int)
      modifies this`noPodsSince
      ensures Of(key) == AfterTimer(old(Of(key)), o, now)
      ensures forall other :: other != key ==> Of(other) == old(Of(other))
    {
      if o.session.None? || o.unreachable || o.pods > 0 {
        noPodsSince := noPodsSince - {key};
      } else if key !in noPodsSince {
        noPodsSince := noPodsSince[key := now];
      }
    }

    /** The end of the block: a workload that has run for a while proves that its reconnect took. */
    method Rearm(key: string, now: int)
      modifies this`reconnects
      ensures
        var t := old(Of(key));
        Of(key) == if t.reconnects.Some? && now - t.reconnects.value.lastAt >= RECONNECT_RESET_MS then t.(reconnects := None) else t
      ensures forall other :: other != key ==> Of(other) == old(Of(other))
    {
      if key in reconnects && now - reconnects[key].lastAt >= RECONNECT_RESET_MS {
        reconnects := reconnects - {key};
      }
    }

    /** The workload block of reconcileOne(), from the cluster's answer to the next await. */
    method Pass(key: string, o: Observation, now: int) returns (act: Act, status: Status)
      modifies this`noPodsSince, this`reconnects, this`transitions
      ensures act == Decide(old(Of(key)), o, now) && status == Settled(old(Of(key)), o, now)
      ensures Of(key) == AfterPass(old(Of(key)), o, now)
      ensures forall other :: other != key ==> Of(other) == old(Of(other))
    {
      var transition := key in transitions;
      act, status := Nothing, o.status;
      NoteQuiet(key, o, now);
      if !transition && o.unreachable && !SessionDead(o) {
        if o.previous.Some? && o.previous.value != Restarting { status := o.previous.value; }
      }
      var retire := ShouldRetire(key, o, now);
      if !transition && retire {
        act := Retire;
        status := if o.deployments > 0 then Deployed else Stopped;
      } else if !transition && SessionDead(o) && !o.unreachable && o.pods > 0 {
        var started := ScheduleReconnect(key, now);
        if started {
          act := Reconnect;
          status := Restarting;
        }
      }
      if transition { status := Restarting; }
      if status == RunningManaged { Rearm(key, now); }
    }

    /** What follows a retirement, and what every user verb (stop, clear, stop session) does first. */
    method Reset(key: string)
      modifies this`noPodsSince, this`reconnects
      ensures Of(key) == old(Of(key)).(noPodsSince := None, reconnects := None)
      ensures forall other :: other != key ==> Of(other) == old(Of(other))
    {
      noPodsSince := noPodsSince - {key};
      reconnects := reconnects - {key};
    }
  }

  // ---- Runs of one workload ----

  datatype Event =
    | Pass(o: Observation, now: int)
    | Reset(now: int)                      // a user verb, or a retirement that has finished
    | SetTransition(on: bool, now: int)    // restart, adopt, and the end of a reconnect
    | SetPaused(on: bool, now: int)

  function Step(t: Timers, e: Event): Timers {
    match e
    case Pass(o, now) => AfterPass(t, o, now)
    case Reset(_) => t.(noPodsSince := None, reconnects := None)
    case SetTransition(on, _) => t.(transition := on)
    case SetPaused(on, _) => t.(paused := on)
  }

  const START := Timers(None, None, false, false)

  /** The timers after the first `k` events. */
  function At(es: seq<Event>, k: nat): Timers
    requires k <= |es|
  {
    if k == 0 then START else Step(At(es, k - 1), es[k - 1])
  }

  predicate InOrder(es: seq<Event>) {
    forall i, j :: 0 <= i <= j < |es| ==> es[i].now <= es[j].now
  }

  /** Pass `k` retires the session or starts a reconnect. */
  predicate Does(es: seq<Event>, k: nat, act: Act)
    requires k < |es|
  {
    es[k].Pass? && Decide(At(es, k), es[k].o, es[k].now) == act
  }

  // ---- Retirement needs an unbroken quiet stretch ----

  /** From pass `j` on, up to event `k`, every pass was quiet and nothing reset the workload. */
  predicate QuietStretch(es: seq<Event>, j: nat, k: nat)
    requires k <= |es|
  {
    && j < k && es[j].Pass?
    && forall i :: j <= i < k ==> !es[i].Reset? && (es[i].Pass? ==> Quiet(es[i].o))
  }

  /** The no-pods timer shows when the longest quiet stretch ending now began, and is unset if there is none. */
  lemma {:induction false} TimerIsStretchStart(es: seq<Event>, k: nat) returns (j: nat)
    requires k <= |es|
    ensures At(es, k).noPodsSince.Some? ==>
              QuietStretch(es, j, k) && At(es, k).noPodsSince == Some(es[j].now) && forall i :: 0 <= i < j ==> !QuietStretch(es, i, k)
    ensures At(es, k).noPodsSince.None? ==> forall i :: 0 <= i < k ==> !QuietStretch(es, i, k)
  {
    j := 0;
    if k > 0 {
      j := TimerIsStretchStart(es, k - 1);
      var e := es[k - 1];
      assert forall i :: 0 <= i < k - 1 && QuietStretch(es, i, k) ==> QuietStretch(es, i, k - 1);
      if e.Pass? && Quiet(e.o) && At(es, k - 1).noPodsSince.None? {
        j := k - 1;
      }
    }
  }

  /** A pass retires a session exactly when no verb holds the workload, the pass itself is quiet, and either the
      session is dead over existing deployments, or both the session and an unbroken stretch of quiet passes
      that ends with this one are at least thirty minutes old. */
  lemma RetiresIffStale(es: seq<Event>, k: nat)
    requires k < |es| && InOrder(es) && es[k].Pass?
    ensures
      var o, now := es[k].o, es[k].now;
      Does(es, k, Retire) <==>
        && !At(es, k).transition && Quiet(o)
        && ((o.session.value.dead && o.deployments > 0) ||
            (&& o.session.value.createdAt.Some? && now - o.session.value.createdAt.value >= STALE_NO_POD_SESSION_MS
             && exists j :: 0 <= j <= k && QuietStretch(es, j, k + 1) && now - es[j].now >= STALE_NO_POD_SESSION_MS))
  {
    var o, now := es[k].o, es[k].now;
    var j := TimerIsStretchStart(es, k + 1);
    assert At(es, k + 1).noPodsSince == AfterTimer(At(es, k), o, now).noPodsSince;
    if exists i :: 0 <= i <= k && QuietStretch(es, i, k + 1) && now - es[i].now >= STALE_NO_POD_SESSION_MS {
      var i :| 0 <= i <= k && QuietStretch(es, i, k + 1) && now - es[i].now >= STALE_NO_POD_SESSION_MS;
      assert j <= i;
    }
  }

  // ---- Reconnects are paced and capped ----

  /** No user verb and no retirement from event `lo` up to `hi`, whatever came before. */
  predicate Undisturbed(es: seq<Event>, lo: nat, hi: nat)
    requires hi <= |es|
  {
    forall k :: lo <= k < hi ==> !es[k].Reset?
  }

  /** Pass `k` settles on RUNNING_MANAGED. */
  predicate Managed(es: seq<Event>, k: nat)
    requires k < |es|
  {
    es[k].Pass? && Settled(At(es, k), es[k].o, es[k].now) == RunningManaged
  }

  /** Pass `k` gives the workload its full budget of attempts back. */
  predicate Rearms(es: seq<Event>, k: nat)
    requires k < |es|
  {
    At(es, k).reconnects.Some? && At(es, k + 1).reconnects.None?
  }

  lemma RearmNeedsManaged(es: seq<Event>, k: nat)
    requires k < |es| && !es[k].Reset? && Rearms(es, k)
    ensures Managed(es, k) && es[k].now - At(es, k).reconnects.value.lastAt >= RECONNECT_RESET_MS
  {
    assert At(es, k + 1) == Step(At(es, k), es[k]);
  }

  /** The recorded attempt is the last one made. */
  lemma {:induction false} LastAttempt(es: seq<Event>, k: nat) returns (x: nat)
    requires k <= |es| && At(es, k).reconnects.Some?
    ensures x < k && Does(es, x, Reconnect) && es[x].now == At(es, k).reconnects.value.lastAt
    ensures forall y :: x < y < k ==> !Does(es, y, Reconnect)
  {
    assert At(es, k) == Step(At(es, k - 1), es[k - 1]);
    if Does(es, k - 1, Reconnect) {
      x := k - 1;
    } else {
      x := LastAttempt(es, k - 1);
    }
  }

  /** How many of the events `lo..hi` start a reconnect. */
  function Attempts(es: seq<Event>, lo: nat, hi: nat): nat
    requires lo <= hi <= |es|
  {
    if lo == hi then 0 else Attempts(es, lo, hi - 1) + if Does(es, hi - 1, Reconnect) then 1 else 0
  }

  /** Without a re-arming pass, every attempt stays on the account. */
  lemma {:induction false} AttemptsAreCounted(es: seq<Event>, lo: nat, hi: nat)
    requires lo <= hi <= |es| && Undisturbed(es, lo, hi)
    requires forall m :: lo <= m < hi ==> !Rearms(es, m)
    ensures Attempts(es, lo, hi) <= Prior(At(es, hi)).attempts
    decreases hi
  {
    if lo < hi {
      AttemptsAreCounted(es, lo, hi - 1);
      assert At(es, hi) == Step(At(es, hi - 1), es[hi - 1]);
      assert !Rearms(es, hi - 1);
    }
  }

  lemma {:induction false} AttemptsAtLeast(es: seq<Event>, lo: nat, hi: nat, a: nat, b: nat, c: nat)
    requires lo <= a < b < c < hi <= |es|
    requires Does(es, a, Reconnect) && Does(es, b, Reconnect) && Does(es, c, Reconnect)
    ensures Attempts(es, lo, hi) >= 3
  {
    AttemptsGrow(es, lo, a + 1, b);
    AttemptsGrow(es, lo, b + 1, c);
    AttemptsGrow(es, lo, c + 1, hi);
  }

  lemma {:induction false} AttemptsGrow(es: seq<Event>, lo: nat, mid: nat, hi: nat)
    requires lo <= mid <= hi <= |es|
    ensures Attempts(es, lo, mid) <= Attempts(es, lo, hi)
    decreases hi
  {
    if mid < hi { AttemptsGrow(es, lo, mid, hi - 1); }
  }

  /** Of any four attempts, the last comes after a RUNNING_MANAGED pass that was at least five minutes later
      than one of the others: a crash-looping session gets three attempts and no more. */
  lemma FourthAttemptNeedsStability(es: seq<Event>, a: nat, b: nat, c: nat, d: nat) returns (x: nat, m: nat)
    requires a < b < c < d < |es| && Undisturbed(es, a, d) && InOrder(es)
    requires Does(es, a, Reconnect) && Does(es, b, Reconnect) && Does(es, c, Reconnect) && Does(es, d, Reconnect)
    ensures a <= x < m < d && Does(es, x, Reconnect) && Managed(es, m)
    ensures es[m].now - es[x].now >= RECONNECT_RESET_MS
  {
    if forall m :: a <= m < d ==> !Rearms(es, m) {
      AttemptsAreCounted(es, a, d);
      AttemptsAtLeast(es, a, d, a, b, c);
      assert false;
    } else {
      m :| a <= m < d && Rearms(es, m);
      RearmNeedsManaged(es, m);
      x := LastAttempt(es, m);
      assert a != m;
    }
  }

  /** Every earlier attempt is at or before the recorded one; an unset record means that the workload has been
      stable for five minutes since each of them. */
  lemma {:induction false} AttemptsArePast(es: seq<Event>, x: nat, k: nat)
    requires x < k < |es| && Undisturbed(es, x, k) && InOrder(es) && Does(es, x, Reconnect)
    ensures At(es, k).reconnects.Some? ==> es[x].now <= At(es, k).reconnects.value.lastAt
    ensures At(es, k).reconnects.None? ==> es[x].now + RECONNECT_RESET_MS <= es[k].now
    decreases k
  {
    assert At(es, k) == Step(At(es, k - 1), es[k - 1]);
    if x < k - 1 {
      AttemptsArePast(es, x, k - 1);
      if Rearms(es, k - 1) { RearmNeedsManaged(es, k - 1); }
    }
  }

  /** Attempts are at least a minute apart. */
  lemma AttemptsApart(es: seq<Event>, x: nat, y: nat)
    requires x < y < |es| && Undisturbed(es, x, y) && InOrder(es)
    requires Does(es, x, Reconnect) && Does(es, y, Reconnect)
    ensures es[y].now - es[x].now >= RECONNECT_COOLDOWN_MS
  {
    AttemptsArePast(es, x, y);
  }
}
