/**
 * Token refresh and sign-in: the phases of `AuthManager`, its exponential
 * backoff after a failed refresh, and the chain of promises that keeps its
 * probes and logins, and so the kubelogin processes, apart.
 *
 * Each event is the code between two awaits. The kube context is fixed and its
 * inspection succeeds; nobody clears the cache. Whether the cached token is
 * fresh enough at a check is an input of that check.
 */
module Auth {
  import opened Basics

  const RETRY_BASE_MS := 15000
  const RETRY_MAX_MS := 300000
  const TOKEN_MARGIN_MS := 60000
  const REFRESH_AHEAD_MS := 1200000

  // ---- `exclusive`: the promise a body waits for, and the promises handed out ----

  datatype Turn = Waiting | Running | Settled

  /** A body handed to `exclusive`: it starts when the promise that was in `lock` has settled. */
  datatype Body = Body(after: Option<nat>, turn: Turn)

  /** `lock` names the promise of the body handed in last. */
  datatype Chain = Chain(lock: Option<nat>, bodies: seq<Body>) {
    function Enter(): Chain { Chain(Some(|bodies|), bodies + [Body(lock, Waiting)]) }

    predicate Has(k: nat, turn: Turn) { k < |bodies| && bodies[k].turn == turn }

    predicate MayStart(k: nat) {
      Has(k, Waiting) && (bodies[k].after.Some? ==> Has(bodies[k].after.value, Settled))
    }

    function Turned(k: nat, turn: Turn): Chain {
      if k < |bodies| then this.(bodies := bodies[k := bodies[k].(turn := turn)]) else this
    }
  }

  datatype Phase = Unknown | SignedIn | LoginRequired | LoggingIn | Failed

  /**
   * Where the one probe that may be in flight has got to, and which body of the
   * chain it is; `Settling` until its `finally` has run.
   */
  datatype Flight =
    | Idle
    | Queued(body: nat, marginMs: int)
    | Checking(body: nat, marginMs: int)
    | Refreshing(body: nat)
    | Granting(body: nat)
    | Settling

  /** The same for the one login. */
  datatype Login = NoLogin | LoginQueued(body: nat) | LoginRunning(body: nat) | LoginSettling

  /** `oidc` is None until the kube context has been inspected. */
  datatype State = State(oidc: Option<bool>, phase: Phase, retryAt: Option<int>, failures: nat,
                         flight: Flight, login: Login, chain: Chain)

  datatype Event =
    | Inspect(now: int, usesOidc: bool)                 // the context is read
    | Gate(now: int, local: bool, valid: bool)          // kubectlAllowed
    | Ensure(now: int, valid: bool)                     // ensure, once the context is known
    | Maintain(now: int)                                // maintain
    | Begin(now: int)                                   // the probe's body starts
    | Check(now: int, valid: bool, refreshable: bool)   // it looks at the cached token
    | Grant(now: int)                                   // it sends the refresh request
    | Renewed(now: int) | Refused(now: int) | Fail(now: int)
    | Finish(now: int)                                  // its `finally`
    | AskLogin(now: int)                                // login
    | BeginLogin(now: int)                              // the login's body starts
    | LoginLine(now: int)                               // kubelogin prints the sign-in URL
    | EndLogin(now: int, ok: bool) | LoginThrows(now: int)
    | FinishLogin(now: int)                             // its `finally`

  function Power(n: nat): nat { if n == 0 then 1 else 2 * Power(n - 1) }

  /** The wait after the `k`-th failure in a row. */
  function Delay(k: nat): int
    requires k >= 1
  {
    Min(RETRY_BASE_MS * Power(k - 1), RETRY_MAX_MS)
  }

  function Settle(s: State, phase: Phase): State {
    s.(phase := phase, retryAt := None, failures := if phase == SignedIn then 0 else s.failures)
  }

  predicate RetryDue(s: State, now: int) { s.phase == Failed && s.retryAt.Some? && now >= s.retryAt.value }

  predicate SettledFailure(s: State, now: int) {
    s.phase == LoginRequired || (s.phase == Failed && !RetryDue(s, now))
  }

  /** Joins the login or probe under way, or hands a new probe to the chain. */
  function Probe(s: State, marginMs: int): State {
    if s.login != NoLogin || s.flight != Idle then s
    else s.(flight := Queued(|s.chain.bodies|, marginMs), chain := s.chain.Enter())
  }

  /** The probe's body has settled. */
  function Land(s: State, body: nat): State { s.(flight := Settling, chain := s.chain.Turned(body, Settled)) }

  /** Whether a kubectl call may run now. */
  predicate Allowed(s: State, local: bool, valid: bool) { local || s.oidc != Some(true) || valid }

  predicate Enabled(s: State, e: Event) {
    match e
    case Inspect(_, usesOidc) => s.oidc.None? || s.oidc.value == usesOidc
    case Ensure(_, _) => s.oidc.Some?
    case Begin(_) => s.flight.Queued? && s.chain.MayStart(s.flight.body)
    case Check(_, _, _) => s.flight.Checking? && s.oidc.Some?
    case Grant(_) => s.flight.Refreshing?
    case Renewed(_) => s.flight.Granting?
    case Refused(_) => s.flight.Granting?
    case Fail(_) => s.flight.Refreshing? || s.flight.Granting?
    case Finish(_) => s.flight == Settling
    case BeginLogin(_) => s.login.LoginQueued? && s.chain.MayStart(s.login.body)
    case LoginLine(_) => s.login.LoginRunning?
    case EndLogin(_, _) => s.login.LoginRunning? && s.oidc.Some?
    case LoginThrows(_) => s.login.LoginRunning?
    case FinishLogin(_) => s.login == LoginSettling
    case _ => true
  }

  function Step(s: State, e: Event): State
    requires Enabled(s, e)
  {
    match e
    case Inspect(_, usesOidc) => s.(oidc := Some(usesOidc))
    case Gate(now, local, valid) =>
      if Allowed(s, local, valid) || SettledFailure(s, now) then s else Probe(s, TOKEN_MARGIN_MS)
    case Ensure(now, valid) =>
      if s.phase == Failed && !RetryDue(s, now) then s
      else if s.oidc != Some(true) || valid then Settle(s, SignedIn)
      else if s.phase == LoginRequired then s
      else Probe(s, TOKEN_MARGIN_MS)
    case Maintain(now) => if SettledFailure(s, now) then s else Probe(s, REFRESH_AHEAD_MS)
    case Begin(_) =>
      s.(flight := Checking(s.flight.body, s.flight.marginMs), chain := s.chain.Turned(s.flight.body, Running))
    case Check(_, valid, refreshable) =>
      var body := s.flight.body;
      if s.oidc == Some(false) then Land(if s.phase == Failed then s else Settle(s, SignedIn), body)
      else if valid then Land(Settle(s, SignedIn), body)
      else if !refreshable then Land(Settle(s, LoginRequired), body)
      else s.(flight := Refreshing(body))
    case Grant(_) => s.(flight := Granting(s.flight.body))
    case Renewed(_) => Land(Settle(s, SignedIn), s.flight.body)
    case Refused(_) => Land(Settle(s, LoginRequired), s.flight.body)
    case Fail(now) =>
      Land(Settle(s, Failed).(failures := s.failures + 1, retryAt := Some(now + Delay(s.failures + 1))), s.flight.body)
    case Finish(_) => s.(flight := Idle)
    case AskLogin(_) =>
      if s.login != NoLogin then s
      else Settle(s, LoggingIn).(login := LoginQueued(|s.chain.bodies|), chain := s.chain.Enter())
    case BeginLogin(_) => s.(login := LoginRunning(s.login.body), chain := s.chain.Turned(s.login.body, Running))
    case LoginLine(_) => Settle(s, LoggingIn)
    case EndLogin(_, ok) =>
      var settled :=
        if s.oidc == Some(false) then (if s.phase == Failed then s else Settle(s, SignedIn))
        else Settle(s, if ok then SignedIn else LoginRequired);
      settled.(login := LoginSettling, chain := s.chain.Turned(s.login.body, Settled))
    case LoginThrows(_) => s.(login := LoginSettling, chain := s.chain.Turned(s.login.body, Settled))
    case FinishLogin(_) => s.(login := NoLogin)
  }

  /** A step that cannot happen yet does not. */
  function Next(s: State, e: Event): State { if Enabled(s, e) then Step(s, e) else s }

  const INITIAL := State(None, Unknown, None, 0, Idle, NoLogin, Chain(None, []))

  function Run(events: seq<Event>): State
    decreases |events|
  {
    if events == [] then INITIAL else Next(Run(events[..|events| - 1]), events[|events| - 1])
  }

  /** A run: every event is enabled where it stands. */
  ghost predicate Legal(events: seq<Event>) { forall n: nat :: n < |events| ==> EnabledAt(events, n) }

  predicate EnabledAt(events: seq<Event>, n: nat)
    requires n < |events|
  {
    Enabled(Run(events[..n]), events[n])
  }

  /** The clock does not go back. */
  predicate ClockRuns(events: seq<Event>) {
    forall i, j :: 0 <= i < j < |events| ==> events[i].now <= events[j].now
  }

  // ---- The delay ----

  lemma {:induction false} PowerGrows(n: nat)
    ensures 1 <= Power(n) < Power(n + 1)
  {
    if n > 0 { PowerGrows(n - 1); }
  }

  lemma {:induction false} PowerPast(n: nat)
    requires n >= 5
    ensures Power(n) >= 32
  {
    if n == 5 {
      assert Power(5) == 2 * Power(4) == 4 * Power(3) == 8 * Power(2) == 16 * Power(1) == 32;
    } else {
      PowerPast(n - 1);
    }
  }

  /** The waits never shrink, stay within the bounds, and are at the upper one from the sixth failure on. */
  lemma DelayGrows(k: nat)
    requires k >= 1
    ensures RETRY_BASE_MS <= Delay(k) <= Delay(k + 1) <= RETRY_MAX_MS
    ensures Delay(k) == RETRY_MAX_MS <==> k >= 6
  {
    PowerGrows(k - 1);
    if k >= 6 {
      PowerPast(k - 1);
    } else {
      assert Power(k - 1) <= 16 by { PowerBelow(k - 1); }
    }
  }

  lemma PowerBelow(n: nat)
    requires n <= 4
    ensures Power(n) <= 16
  {
    assert Power(4) == 2 * Power(3) == 4 * Power(2) == 8 * Power(1) == 16;
    if n < 4 { PowerGrows(n); if n < 3 { PowerGrows(n + 1); if n < 2 { PowerGrows(n + 2); if n < 1 { PowerGrows(3); } } } }
  }

  // ---- The backoff ----

  /** Failures in a row: those since the phase was last `SignedIn`. */
  function Streak(events: seq<Event>): nat
    decreases |events|
  {
    if events == [] || Run(events).phase == SignedIn then 0
    else
      var n := |events| - 1;
      Streak(events[..n]) + if events[n].Fail? && Enabled(Run(events[..n]), events[n]) then 1 else 0
  }

  lemma NextCounts(s: State, e: Event)
    requires s.phase == SignedIn ==> s.failures == 0
    ensures var t := Next(s, e);
            t.failures == if t.phase == SignedIn then 0
                          else s.failures + if e.Fail? && Enabled(s, e) then 1 else 0
  {
  }

  lemma {:induction false} FailuresAreCounted(events: seq<Event>)
    ensures Run(events).failures == Streak(events)
    ensures Run(events).phase == SignedIn ==> Run(events).failures == 0
    decreases |events|
  {
    if events != [] {
      FailuresAreCounted(events[..|events| - 1]);
      NextCounts(Run(events[..|events| - 1]), events[|events| - 1]);
    }
  }

  /** Waiting out a failure: nothing is in flight that could still send a request, and nobody is signing in. */
  predicate Cooling(s: State, until: int) {
    s.phase == Failed && s.retryAt == Some(until) && (s.flight == Idle || s.flight == Settling) && s.login == NoLogin
  }

  /** Before the wait is over no event but a click on login ends it, and none sends a request. */
  lemma CoolingStep(s: State, e: Event, until: int)
    requires Cooling(s, until) && e.now < until && !e.AskLogin?
    ensures Cooling(Next(s, e), until) && !(e.Grant? && Enabled(s, e))
  {
  }

  lemma RunNext(events: seq<Event>, n: nat)
    requires n < |events|
    ensures Run(events[..n + 1]) == Next(Run(events[..n]), events[n])
  {
    assert events[..n + 1][..n] == events[..n];
  }

  /** No login is asked for between the two. */
  predicate NobodySignsIn(events: seq<Event>, i: nat, j: nat)
    requires j <= |events|
  {
    forall n :: i < n < j ==> !events[n].AskLogin?
  }

  lemma {:induction false} StaysCooling(events: seq<Event>, i: nat, j: nat, until: int)
    requires i < j <= |events| && Cooling(Run(events[..i + 1]), until)
    requires NobodySignsIn(events, i, j) && forall n :: i < n < j ==> events[n].now < until
    ensures Cooling(Run(events[..j]), until)
    decreases j
  {
    if i + 1 < j {
      StaysCooling(events, i, j - 1, until);
      CoolingNext(events, j - 1, until);
    }
  }

  lemma CoolingNext(events: seq<Event>, n: nat, until: int)
    requires n < |events| && events[n].now < until && !events[n].AskLogin?
    requires Cooling(Run(events[..n]), until)
    ensures Cooling(Run(events[..n + 1]), until)
  {
    RunNext(events, n);
    CoolingStep(Run(events[..n]), events[n], until);
  }

  lemma FailCools(events: seq<Event>, i: nat)
    requires i < |events| && events[i].Fail? && EnabledAt(events, i) && Run(events[..i]).login == NoLogin
    ensures Streak(events[..i + 1]) >= 1
    ensures Cooling(Run(events[..i + 1]), events[i].now + Delay(Streak(events[..i + 1])))
  {
    RunNext(events, i);
    FailuresAreCounted(events[..i]);
    FailuresAreCounted(events[..i + 1]);
    NextCounts(Run(events[..i]), events[i]);
  }

  /**
   * After the k-th failure in a row, no refresh request is sent, by any of the
   * callers, until the k-th delay is over or somebody signs in.
   */
  lemma NoGrantBeforeTheDelay(events: seq<Event>, i: nat, j: nat)
    requires Legal(events) && ClockRuns(events) && i < j < |events| && events[i].Fail? && events[j].Grant?
    requires Run(events[..i]).login == NoLogin && NobodySignsIn(events, i, j)
    ensures Streak(events[..i + 1]) >= 1
    ensures events[j].now >= events[i].now + Delay(Streak(events[..i + 1]))
  {
    assert EnabledAt(events, i) && EnabledAt(events, j);
    FailCools(events, i);
    var until := events[i].now + Delay(Streak(events[..i + 1]));
    if events[j].now < until {
      StaysCooling(events, i, j, until);
      assert false;
    }
  }

  predicate Answers(e: Event) { e.Renewed? || e.Refused? || e.Fail? }

  /** Between two requests there is an answer: only one probe is ever in flight. */
  lemma GrantsTakeTurns(events: seq<Event>, i: nat, j: nat)
    requires Legal(events) && i < j < |events| && events[i].Grant? && events[j].Grant?
    ensures exists m :: i < m < j && Answers(events[m])
  {
    assert EnabledAt(events, j);
    if forall m :: i < m < j ==> !Answers(events[m]) {
      StaysGranting(events, i, j);
      assert false;
    }
  }

  lemma GrantingNext(events: seq<Event>, n: nat)
    requires n < |events| && EnabledAt(events, n) && !Answers(events[n])
    requires Run(events[..n]).flight.Granting?
    ensures Run(events[..n + 1]).flight.Granting?
  {
    RunNext(events, n);
  }

  lemma {:induction false} StaysGranting(events: seq<Event>, i: nat, j: nat)
    requires Legal(events) && i < j <= |events| && events[i].Grant?
    requires forall m :: i < m < j ==> !Answers(events[m])
    ensures Run(events[..j]).flight.Granting?
    decreases j
  {
    if i + 1 < j {
      StaysGranting(events, i, j - 1);
      GrantingNext(events, j - 1);
    } else {
      assert EnabledAt(events, i);
      RunNext(events, i);
    }
  }

  // ---- Probes and logins never overlap ----

  /** The chain as the promises make it: each body waits for the one handed in before, and has started only after it. */
  ghost predicate ChainOk(c: Chain) {
    && c.lock == (if c.bodies == [] then None else Some(|c.bodies| - 1))
    && (forall k :: 0 <= k < |c.bodies| ==> c.bodies[k].after == (if k == 0 then None else Some(k - 1)))
    && (forall k :: 0 < k < |c.bodies| && c.bodies[k].turn != Waiting ==> c.bodies[k - 1].turn == Settled)
  }

  predicate ProbeRuns(s: State) { s.flight.Checking? || s.flight.Refreshing? || s.flight.Granting? }

  predicate FlightOk(s: State) {
    && (s.flight.Queued? ==> s.chain.Has(s.flight.body, Waiting))
    && (ProbeRuns(s) ==> s.chain.Has(s.flight.body, Running))
  }

  predicate LoginOk(s: State) {
    && (s.login.LoginQueued? ==> s.chain.Has(s.login.body, Waiting))
    && (s.login.LoginRunning? ==> s.chain.Has(s.login.body, Running))
  }

  /** The probe and the login are bodies of their own. */
  predicate OwnBodies(s: State) {
    (s.flight.Queued? || ProbeRuns(s)) && (s.login.LoginQueued? || s.login.LoginRunning?) ==>
      s.flight.body != s.login.body
  }

  ghost predicate Inv(s: State) { ChainOk(s.chain) && FlightOk(s) && LoginOk(s) && OwnBodies(s) }

  lemma EnterOk(c: Chain)
    requires ChainOk(c)
    ensures ChainOk(c.Enter()) && c.Enter().Has(|c.bodies|, Waiting)
    ensures forall k: nat, turn :: c.Has(k, turn) ==> c.Enter().Has(k, turn)
  {
  }

  lemma StartOk(c: Chain, k: nat)
    requires ChainOk(c) && c.MayStart(k)
    ensures ChainOk(c.Turned(k, Running)) && c.Turned(k, Running).Has(k, Running)
    ensures forall j: nat, turn :: j != k && c.Has(j, turn) ==> c.Turned(k, Running).Has(j, turn)
  {
    assert k > 0 ==> c.Has(k - 1, Settled);
  }

  lemma SettleOk(c: Chain, k: nat)
    requires ChainOk(c) && c.Has(k, Running)
    ensures ChainOk(c.Turned(k, Settled))
    ensures forall j: nat, turn :: j != k && c.Has(j, turn) ==> c.Turned(k, Settled).Has(j, turn)
  {
  }

  lemma ProbeOk(s: State, marginMs: int)
    requires Inv(s)
    ensures Inv(Probe(s, marginMs))
  {
    EnterOk(s.chain);
  }

  lemma LandOk(s: State, phase: Phase)
    requires Inv(s) && ProbeRuns(s)
    ensures Inv(Land(s, s.flight.body))
    ensures Inv(Land(Settle(s, phase), s.flight.body))
  {
    SettleOk(s.chain, s.flight.body);
  }

  /** What the probe's own events do. */
  lemma FlightStep(s: State, e: Event)
    requires Inv(s) && Enabled(s, e)
    requires e.Begin? || e.Check? || e.Grant? || e.Renewed? || e.Refused? || e.Fail? || e.Finish?
    ensures Inv(Step(s, e))
  {
    if e.Begin? {
      StartOk(s.chain, s.flight.body);
    } else if !e.Finish? {
      LandOk(s, SignedIn);
    }
  }

  /** What the login's own events do. */
  lemma LoginStep(s: State, e: Event)
    requires Inv(s) && Enabled(s, e)
    requires e.AskLogin? || e.BeginLogin? || e.LoginLine? || e.EndLogin? || e.LoginThrows? || e.FinishLogin?
    ensures Inv(Step(s, e))
  {
    if e.AskLogin? {
      EnterOk(s.chain);
    } else if e.BeginLogin? {
      StartOk(s.chain, s.login.body);
    } else if !e.FinishLogin? {
      SettleOk(s.chain, s.login.body);
    }
  }

  lemma InvStep(s: State, e: Event)
    requires Inv(s)
    ensures Inv(Next(s, e))
  {
    if !Enabled(s, e) {
    } else if e.Gate? || e.Ensure? || e.Maintain? || e.Inspect? {
      ProbeOk(s, TOKEN_MARGIN_MS);
      ProbeOk(s, REFRESH_AHEAD_MS);
    } else if e.AskLogin? || e.BeginLogin? || e.LoginLine? || e.EndLogin? || e.LoginThrows? || e.FinishLogin? {
      LoginStep(s, e);
    } else {
      FlightStep(s, e);
    }
  }

  lemma {:induction false} RunKeepsInv(events: seq<Event>)
    ensures Inv(Run(events))
    decreases |events|
  {
    if events != [] {
      RunKeepsInv(events[..|events| - 1]);
      InvStep(Run(events[..|events| - 1]), events[|events| - 1]);
    }
  }

  lemma {:induction false} EarlierHaveSettled(c: Chain, i: nat, j: nat)
    requires ChainOk(c) && i < j < |c.bodies| && c.bodies[j].turn != Waiting
    ensures c.Has(i, Settled)
    decreases j
  {
    if i + 1 < j { EarlierHaveSettled(c, i, j - 1); }
  }

  /**
   * In every run the bodies handed to `exclusive` start in that order and each
   * only after all before it have settled; so a probe and a login are never
   * both at work.
   */
  lemma ExclusiveBodiesTakeTurns(events: seq<Event>, i: nat, j: nat)
    ensures var c := Run(events).chain;
            i < j < |c.bodies| && c.bodies[j].turn != Waiting ==> c.Has(i, Settled)
    ensures !(ProbeRuns(Run(events)) && Run(events).login.LoginRunning?)
  {
    var s := Run(events);
    RunKeepsInv(events);
    if i < j < |s.chain.bodies| && s.chain.bodies[j].turn != Waiting {
      EarlierHaveSettled(s.chain, i, j);
    }
    if ProbeRuns(s) && s.login.LoginRunning? {
      var a, b := s.flight.body, s.login.body;
      if a < b { EarlierHaveSettled(s.chain, a, b); } else { EarlierHaveSettled(s.chain, b, a); }
      assert false;
    }
  }

  // ---- The class: each method is one event ----

  class AuthManager {
    var oidc: Option<bool>
    var phase: Phase
    var retryAt: Option<int>
    var failures: nat
    /** The probe and the login in flight; Idle and NoLogin when there is none. */
    var probing: Flight
    var logging: Login
    /** The promise to wait for, and the promises handed out. */
    var lock: Option<nat>
    var bodies: seq<Body>

    function Value(): State
      reads this
    {
      State(oidc, phase, retryAt, failures, probing, logging, Chain(lock, bodies))
    }

    constructor ()
      ensures Value() == INITIAL
    {
      oidc, phase, retryAt, failures, probing, logging := None, Unknown, None, 0, Idle, NoLogin;
      lock, bodies := None, [];
    }

    method SettleAs(p: Phase)
      modifies this`phase, this`retryAt, this`failures
      ensures Value() == Settle(old(Value()), p)
    {
      phase := p;
      retryAt := None;
      if p == SignedIn { failures := 0; }
    }

    /** `exclusive`: the body will wait for the promise in `lock`, and its own promise takes that place. */
    method Exclusive() returns (body: nat)
      modifies this`lock, this`bodies
      ensures body == |old(bodies)| && Value() == old(Value()).(chain := old(Value()).chain.Enter())
    {
      body := |bodies|;
      bodies := bodies + [Body(lock, Waiting)];
      lock := Some(body);
    }

    /** Joins the login or probe in flight, or hands a probe to the chain. */
    method StartProbe(marginMs: int)
      modifies this`probing, this`lock, this`bodies
      ensures Value() == Probe(old(Value()), marginMs)
    {
      if logging != NoLogin { return; }
      if probing != Idle { return; }
      var body := Exclusive();
      probing := Queued(body, marginMs);
    }

    method KubectlAllowed(now: int, local: bool, valid: bool) returns (allowed: bool)
      modifies this`probing, this`lock, this`bodies
      ensures Value() == Next(old(Value()), Gate(now, local, valid))
      ensures allowed <==> Allowed(old(Value()), local, valid)
    {
      if local { return true; }
      if oidc != Some(true) { return true; }
      if valid { return true; }
      if !SettledFailure(Value(), now) { StartProbe(TOKEN_MARGIN_MS); }
      return false;
    }

    method EnsureSignedIn(now: int, valid: bool)
      requires oidc.Some?
      modifies this
      ensures Value() == Next(old(Value()), Ensure(now, valid))
    {
      if phase == Failed && !RetryDue(Value(), now) { return; }
      if oidc != Some(true) { SettleAs(SignedIn); return; }
      if valid { SettleAs(SignedIn); return; }
      if phase == LoginRequired { return; }
      StartProbe(TOKEN_MARGIN_MS);
    }

    method MaintainToken(now: int)
      modifies this`probing, this`lock, this`bodies
      ensures Value() == Next(old(Value()), Maintain(now))
    {
      if SettledFailure(Value(), now) { return; }
      StartProbe(REFRESH_AHEAD_MS);
    }

    /** `login`: one at a time; the click shows at once, also when a probe still holds the chain. */
    method StartLogin(now: int)
      modifies this
      ensures Value() == Next(old(Value()), AskLogin(now))
    {
      if logging != NoLogin { return; }
      SettleAs(LoggingIn);
      var body := Exclusive();
      logging := LoginQueued(body);
    }

    /** The body of a probe once the context is known: settled at once, or a refresh begins. */
    method CheckToken(now: int, valid: bool, refreshable: bool)
      requires Enabled(Value(), Check(now, valid, refreshable))
      modifies this
      ensures Value() == Next(old(Value()), Check(now, valid, refreshable))
    {
      if oidc == Some(false) {
        if phase != Failed { SettleAs(SignedIn); }
        LandProbe(probing.body);
        return;
      }
      if valid { SettleAs(SignedIn); LandProbe(probing.body); return; }
      if !refreshable { SettleAs(LoginRequired); LandProbe(probing.body); return; }
      probing := Refreshing(probing.body);
    }

    /** The promise of the probe's body settles. */
    method LandProbe(body: nat)
      modifies this`probing, this`bodies
      ensures Value() == Land(old(Value()), body)
    {
      probing := Settling;
      if body < |bodies| { bodies := bodies[body := bodies[body].(turn := Settled)]; }
    }

    /** A failed refresh: one more failure, and the time of the next attempt. */
    method RetryLater(now: int)
      requires Enabled(Value(), Fail(now))
      modifies this
      ensures Value() == Next(old(Value()), Fail(now))
    {
      failures := failures + 1;
      var delay := Delay(failures);
      SettleAs(Failed);
      retryAt := Some(now + delay);
      LandProbe(probing.body);
    }
  }
}
