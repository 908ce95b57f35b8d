/**
 * Building the members of a sandbox: a pool of two workers, and builds of the same image shared between the
 * callers that are active at the same time.
 */
module ImageBuilds {
  import opened Basics

  // ---- parallelMembers(): two workers over a shared counter ----

  function Iota(n: nat): (s: seq<nat>)
    ensures |s| == n && forall k :: 0 <= k < n ==> s[k] == k
  {
    if n == 0 then [] else Iota(n - 1) + [n - 1]
  }

  predicate Distinct(s: seq<nat>) {
    forall i, j :: 0 <= i < j < |s| ==> s[i] != s[j]
  }

  /** Where the members `0..next` are: each is in exactly one place. */
  ghost predicate Accounted(next: nat, busy: seq<Option<nat>>, done: set<nat>) {
    && (forall m :: 0 <= m < next ==> m in done || Some(m) in busy)
    && (forall m :: m in done ==> m < next && Some(m) !in busy)
    && (forall w :: 0 <= w < |busy| && busy[w].Some? ==> busy[w].value < next)
    && (forall v, w :: 0 <= v < w < |busy| && busy[v].Some? ==> busy[v] != busy[w])
  }

  predicate AnyBusy(busy: seq<Option<nat>>) { exists w :: 0 <= w < |busy| && busy[w].Some? }

  function Load(busy: seq<Option<nat>>): nat {
    if busy == [] then 0 else Load(busy[..|busy| - 1]) + if busy[|busy| - 1].Some? then 1 else 0
  }

  lemma {:induction false} LoadUpdate(busy: seq<Option<nat>>, w: nat, x: Option<nat>)
    requires w < |busy|
    ensures Load(busy[w := x]) == Load(busy) + (if x.Some? then 1 else 0) - (if busy[w].Some? then 1 else 0)
  {
    var init := busy[..|busy| - 1];
    if w == |busy| - 1 {
      assert busy[w := x][..|busy| - 1] == init;
    } else {
      LoadUpdate(init, w, x);
      assert busy[w := x][..|busy| - 1] == init[w := x];
    }
  }

  /** A worker takes the next member. */
  lemma Taken(next: nat, busy: seq<Option<nat>>, done: set<nat>, w: nat)
    requires Accounted(next, busy, done) && w < |busy| && busy[w].None?
    ensures Accounted(next + 1, busy[w := Some(next)], done)
  {
    var busy' := busy[w := Some(next)];
    assert busy'[w] == Some(next);
    forall m | 0 <= m < next && Some(m) in busy ensures Some(m) in busy' {
      var v :| 0 <= v < |busy| && busy[v] == Some(m);
      assert busy'[v] == Some(m);
    }
  }

  /** The work of a member settles. */
  lemma Finished(next: nat, busy: seq<Option<nat>>, done: set<nat>, w: nat)
    requires Accounted(next, busy, done) && w < |busy| && busy[w].Some?
    ensures Accounted(next, busy[w := None], done + {busy[w].value}) && busy[w].value !in done
  {
    var busy' := busy[w := None];
    forall m | 0 <= m < next && Some(m) in busy && m != busy[w].value ensures Some(m) in busy' {
      var v :| 0 <= v < |busy| && busy[v] == Some(m);
      assert busy'[v] == Some(m);
    }
    assert Some(busy[w].value) in busy;
    assert forall v :: 0 <= v < |busy'| && busy'[v].Some? ==> v != w && busy'[v] == busy[v] && busy[v] != busy[w];
  }

  /** The pool after some progress: every member is in one place, started in order, and reported if it failed. */
  ghost predicate PoolOk(fails: seq<bool>, next: nat, busy: seq<Option<nat>>, starts: seq<nat>, errors: seq<nat>, done: set<nat>) {
    && |busy| == Min(2, |fails|) && next <= |fails| && Accounted(next, busy, done)
    && starts == Iota(next) && Reported(fails, errors, done)
  }

  /** What is still to be done. */
  function Work(fails: seq<bool>, next: nat, busy: seq<Option<nat>>): int { 2 * (|fails| - next) + Load(busy) }

  lemma SettleOk(fails: seq<bool>, next: nat, busy: seq<Option<nat>>, starts: seq<nat>, errors: seq<nat>, done: set<nat>, w: nat)
    requires PoolOk(fails, next, busy, starts, errors, done) && w < |busy| && busy[w].Some?
    ensures busy[w].value < |fails|
    ensures var m := busy[w].value;
            PoolOk(fails, next, busy[w := None], starts, if fails[m] then errors + [m] else errors, done + {m})
    ensures Work(fails, next, busy[w := None]) < Work(fails, next, busy)
  {
    Finished(next, busy, done, w);
    LoadUpdate(busy, w, None);
    Settles(fails, errors, done, busy[w].value);
  }

  lemma TakeOk(fails: seq<bool>, next: nat, busy: seq<Option<nat>>, starts: seq<nat>, errors: seq<nat>, done: set<nat>, w: nat)
    requires PoolOk(fails, next, busy, starts, errors, done) && w < |busy| && busy[w].None? && next < |fails|
    ensures PoolOk(fails, next + 1, busy[w := Some(next)], starts + [next], errors, done)
    ensures Work(fails, next + 1, busy[w := Some(next)]) < Work(fails, next, busy)
  {
    Taken(next, busy, done, w);
    LoadUpdate(busy, w, Some(next));
  }

  /** Runs `work` on every member; `fails[m]` says how the work of member `m` ends. Work settles in any order.
      Every member runs exactly once, at most two at a time, and exactly the failures are reported. */
  method ParallelMembers(fails: seq<bool>) returns (starts: seq<nat>, errors: seq<nat>, peak: nat)
    ensures starts == Iota(|fails|)
    ensures Distinct(errors) && forall m: nat :: m in errors <==> m < |fails| && fails[m]
    ensures peak <= 2
  {
    var next := 0;
    var busy: seq<Option<nat>> := seq(Min(2, |fails|), k => None);
    ghost var done: set<nat> := {};
    starts, errors, peak := [], [], 0;
    NobodyBusy(busy);
    while next < |fails| || AnyBusy(busy)
      invariant PoolOk(fails, next, busy, starts, errors, done) && peak <= 2
      decreases Work(fails, next, busy)
    {
      // One worker goes on: it settles the member it has, or takes the next one.
      var w :| 0 <= w < |busy| && (busy[w].Some? || next < |fails|);
      if busy[w].Some? {
        SettleOk(fails, next, busy, starts, errors, done, w);
        var m := busy[w].value;
        if fails[m] { errors := errors + [m]; }
        done := done + {m};
        busy := busy[w := None];
      } else {
        TakeOk(fails, next, busy, starts, errors, done, w);
        starts := starts + [next];
        busy := busy[w := Some(next)];
        next := next + 1;
      }
      LoadAtMost(busy);
      peak := Max(peak, Load(busy));
    }
    AllDone(fails, next, busy, done);
  }

  /** Exactly the failures among the settled members have been reported, once each. */
  ghost predicate Reported(fails: seq<bool>, errors: seq<nat>, done: set<nat>) {
    Distinct(errors) && forall m: nat :: m in errors <==> m in done && m < |fails| && fails[m]
  }

  lemma Settles(fails: seq<bool>, errors: seq<nat>, done: set<nat>, m: nat)
    requires Reported(fails, errors, done) && m < |fails| && m !in done
    ensures Reported(fails, if fails[m] then errors + [m] else errors, done + {m})
  {
  }

  lemma {:induction false} LoadAtMost(busy: seq<Option<nat>>)
    ensures Load(busy) <= |busy|
  {
    if busy != [] { LoadAtMost(busy[..|busy| - 1]); }
  }

  lemma {:induction false} NobodyBusy(busy: seq<Option<nat>>)
    requires forall w :: 0 <= w < |busy| ==> busy[w].None?
    ensures Load(busy) == 0
  {
    if busy != [] { NobodyBusy(busy[..|busy| - 1]); }
  }

  lemma AllDone(fails: seq<bool>, next: nat, busy: seq<Option<nat>>, done: set<nat>)
    requires Accounted(next, busy, done) && !AnyBusy(busy) && next == |fails|
    ensures forall m: nat :: m in done <==> m < |fails|
  {
    assert forall m: nat :: m < next ==> Some(m) !in busy;
  }

  // ---- SandboxImageBuilds: single-flight builds per image ----

  /** Where one call of deploy(key, exists, deploy) stands. `skip` is what its deploy was told. */
  datatype Pc =
    | Called
    | Awaiting(owner: nat)            // another call builds this image
    | Checking                        // the task's exists()
    | Deploying(skip: bool, owns: bool)
    | Settled(ok: bool)               // the task has settled; `finally` has not run yet
    | Returned(ok: bool)

  /** `image`: the answer of exists(), once known. */
  datatype Call = Call(key: string, pc: Pc, image: Option<bool>, prior: Option<nat>)

  datatype State = State(builds: map<string, nat>, calls: map<nat, Call>)

  datatype Event =
    | Begin(call: nat, key: string)
    | Step(call: nat, answer: bool)   // `answer`: what exists() or deploy() comes back with
    | Throws(call: nat)               // exists() rejects

  predicate Enabled(s: State, e: Event) {
    match e
    case Begin(id, _) => id !in s.calls
    case Step(id, _) => id in s.calls && !s.calls[id].pc.Returned?
                        && (s.calls[id].pc.Awaiting? ==> s.calls[id].pc.owner in s.calls && Outcome(s, s.calls[id].pc.owner).Some?)
    case Throws(id) => id in s.calls && s.calls[id].pc.Checking?
  }

  /** How the task of a call has settled, if it has. */
  function Outcome(s: State, id: nat): Option<bool>
    requires id in s.calls
  {
    match s.calls[id].pc
    case Settled(ok) => Some(ok)
    case Returned(ok) => Some(ok)
    case _ => None
  }

  function Goto(s: State, id: nat, pc: Pc): State
    requires id in s.calls
  {
    s.(calls := s.calls[id := s.calls[id].(pc := pc)])
  }

  function Apply(s: State, e: Event): State
    requires Enabled(s, e)
  {
    match e
    case Begin(id, key) => s.(calls := s.calls[id := Call(key, Called, None, None)])
    case Throws(id) => Goto(s, id, Settled(false))
    case Step(id, answer) =>
      var c := s.calls[id];
      match c.pc {
        case Called =>
          if c.key in s.builds
          then s.(calls := s.calls[id := c.(pc := Awaiting(s.builds[c.key]), prior := Some(s.builds[c.key]))])
          else Goto(s, id, Checking).(builds := s.builds[c.key := id])
        case Awaiting(owner) =>
          Goto(s, id, if Outcome(s, owner) == Some(true) then Deploying(true, false) else Returned(false))
        case Checking => s.(calls := s.calls[id := c.(pc := Deploying(answer, true), image := Some(answer))])
        case Deploying(_, owns) => Goto(s, id, if owns then Settled(answer) else Returned(answer))
        case Settled(ok) =>
          Goto(s, id, Returned(ok)).(builds := if c.key in s.builds && s.builds[c.key] == id then s.builds - {c.key} else s.builds)
        case Returned(_) => s
      }
  }

  /** The call runs the task that others may join. */
  predicate Owns(pc: Pc) { pc.Checking? || (pc.Deploying? && pc.owns) || pc.Settled? }

  predicate CallOk(s: State, id: nat)
    requires id in s.calls
  {
    var c := s.calls[id];
    && (Owns(c.pc) ==> c.key in s.builds && s.builds[c.key] == id && c.prior.None?)
    && (c.pc.Called? ==> c.prior.None?)
    && (c.pc.Awaiting? ==> c.prior == Some(c.pc.owner))
    && (c.prior.Some? ==> c.prior.value in s.calls && s.calls[c.prior.value].key == c.key && s.calls[c.prior.value].prior.None? && !s.calls[c.prior.value].pc.Called?)
    && (c.pc.Deploying? ==>
          if c.pc.owns then c.image == Some(c.pc.skip)
          else c.pc.skip && c.prior.Some? && Outcome(s, c.prior.value) == Some(true))
  }

  ghost predicate Inv(s: State) {
    && (forall id :: id in s.calls ==> CallOk(s, id))
    && (forall key :: key in s.builds ==> s.builds[key] in s.calls && s.calls[s.builds[key]].key == key && Owns(s.calls[s.builds[key]].pc))
  }

  /** A call's own step. */
  lemma OwnStep(s: State, e: Event, id: nat)
    requires Inv(s) && Enabled(s, e) && e.call == id
    ensures CallOk(Apply(s, e), id)
  {
    assert !e.Begin? ==> CallOk(s, id);
  }

  /** What another call does: it may build the image, settle and forget its task, but not undo an outcome. */
  lemma OtherStep(s: State, e: Event, id: nat)
    requires Enabled(s, e) && e.call != id && id in s.calls && CallOk(s, id)
    requires !e.Begin? ==> CallOk(s, e.call)
    ensures CallOk(Apply(s, e), id)
  {
  }

  lemma CallStep(s: State, e: Event, id: nat)
    requires Inv(s) && Enabled(s, e) && id in Apply(s, e).calls
    ensures CallOk(Apply(s, e), id)
  {
    if e.call == id { OwnStep(s, e, id); } else { OtherStep(s, e, id); }
  }

  lemma InvStep(s: State, e: Event)
    requires Inv(s) && Enabled(s, e)
    ensures Inv(Apply(s, e))
  {
    var t := Apply(s, e);
    forall id | id in t.calls ensures CallOk(t, id) { CallStep(s, e, id); }
    if !e.Begin? { assert CallOk(s, e.call); }
  }

  ghost predicate Run(states: seq<State>, events: seq<Event>) {
    && |states| == |events| + 1
    && states[0] == State(map[], map[])
    && forall k :: 0 <= k < |events| ==> Enabled(states[k], events[k]) && states[k + 1] == Apply(states[k], events[k])
  }

  lemma {:induction false} RunKeepsInv(states: seq<State>, events: seq<Event>, k: nat)
    requires Run(states, events) && k < |states|
    ensures Inv(states[k])
  {
    if k > 0 {
      RunKeepsInv(states, events, k - 1);
      InvStep(states[k - 1], events[k - 1]);
    }
  }

  /** At most one deploy that builds (is not told to skip) is in flight per image. */
  lemma OneBuildPerImage(states: seq<State>, events: seq<Event>, k: nat, a: nat, b: nat)
    requires Run(states, events) && k < |states|
    requires a in states[k].calls && b in states[k].calls && states[k].calls[a].key == states[k].calls[b].key
    requires states[k].calls[a].pc.Deploying? && !states[k].calls[a].pc.skip
    requires states[k].calls[b].pc.Deploying? && !states[k].calls[b].pc.skip
    ensures a == b
  {
    RunKeepsInv(states, events, k);
    assert CallOk(states[k], a) && CallOk(states[k], b);
  }

  /** A deploy skips the build only when its own exists() found the image, or when the deploy of another call for
      the same image has succeeded. */
  lemma SkipIsJustified(states: seq<State>, events: seq<Event>, k: nat, id: nat)
    requires Run(states, events) && k < |states|
    requires id in states[k].calls && states[k].calls[id].pc.Deploying? && states[k].calls[id].pc.skip
    ensures
      var s, c := states[k], states[k].calls[id];
      || c.image == Some(true)
      || (c.prior.Some? && c.prior.value in s.calls && s.calls[c.prior.value].key == c.key && Outcome(s, c.prior.value) == Some(true))
  {
    RunKeepsInv(states, events, k);
    assert CallOk(states[k], id);
  }

  /** Builds are remembered only while their caller is active. */
  lemma NothingOutlivesTheCallers(states: seq<State>, events: seq<Event>, k: nat)
    requires Run(states, events) && k < |states|
    requires forall id :: id in states[k].calls ==> states[k].calls[id].pc.Returned?
    ensures states[k].builds == map[]
  {
    RunKeepsInv(states, events, k);
  }
}
