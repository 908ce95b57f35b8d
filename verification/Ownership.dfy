/**
 * Deployment ownership: one ConfigMap per deployment names the instance that may operate it.
 *
 * A claim is won by creating the record or by finding one's own name in it. A release reads the record, checks
 * the name and then deletes it; the delete does not test what it deletes. A takeover removes the record of
 * another instance in the same way and then claims.
 *
 * One event is one kubectl call or the code between two awaits; calls of all instances interleave freely.
 */
module Ownership {
  import opened Basics

  datatype Kind = Claim | Release | TakeOver(from: nat)

  datatype Pc =
    // remove(): read, check, delete
    | RemoveRead
    | RemoveSeen(owner: Option<nat>)
    | Deleting
    | Deleted
    // claim(): read, create, read again
    | ClaimRead
    | ClaimSeen(owner: Option<nat>)
    | Creating
    | Created
    | Refused            // the create failed: lost to another daemon, or not permitted
    | Reread
    | RereadSeen(owner: Option<nat>)
    // settled
    | Succeeded
    | Threw

  datatype Call = Call(instance: nat, kind: Kind, pc: Pc)

  /** `claimed`: the instances told that their claim succeeded and whose claim has not been removed since. */
  datatype State = State(record: Option<nat>, calls: map<nat, Call>, claimed: set<nat>)

  datatype Event =
    | Begin(call: nat, instance: nat, kind: Kind)
    | Step(call: nat)        // the cluster performs the call, or its response is handled
    | CallFails(call: nat)   // the call does not apply and reports an error

  predicate Settled(pc: Pc) { pc.Succeeded? || pc.Threw? }

  /** Whose record remove() deletes. */
  function Holder(c: Call): nat {
    if c.kind.TakeOver? then c.kind.from else c.instance
  }

  predicate Enabled(s: State, e: Event) {
    match e
    case Begin(id, _, _) => id !in s.calls
    case Step(id) => id in s.calls && !Settled(s.calls[id].pc)
    case CallFails(id) => id in s.calls && !Settled(s.calls[id].pc)
  }

  function Goto(s: State, id: nat, pc: Pc): State
    requires id in s.calls
  {
    s.(calls := s.calls[id := s.calls[id].(pc := pc)])
  }

  /** The claim resolves: its caller may operate the deployment from now on. */
  function Win(s: State, id: nat): State
    requires id in s.calls
  {
    Goto(s, id, Succeeded).(claimed := s.claimed + {s.calls[id].instance})
  }

  function Settle(s: State, id: nat, owner: Option<nat>): State
    requires id in s.calls
  {
    if owner == Some(s.calls[id].instance) then Win(s, id) else Goto(s, id, Threw)
  }

  function StepState(s: State, id: nat): State
    requires Enabled(s, Step(id))
  {
    var c := s.calls[id];
    match c.pc
    case RemoveRead => Goto(s, id, RemoveSeen(s.record))
    case RemoveSeen(owner) =>
      if owner.None? then Goto(s, id, Deleted)
      else if owner.value != Holder(c) then Goto(s, id, Threw)
      else Goto(s, id, Deleting)
    case Deleting => Goto(s, id, Deleted).(record := None, claimed := s.claimed - {Holder(c)})
    case Deleted => Goto(s, id, if c.kind.TakeOver? then ClaimRead else Succeeded)
    case ClaimRead => Goto(s, id, ClaimSeen(s.record))
    case ClaimSeen(owner) => if owner.None? then Goto(s, id, Creating) else Settle(s, id, owner)
    case Creating =>
      if s.record.None? then Goto(s, id, Created).(record := Some(c.instance)) else Goto(s, id, Refused)
    case Created => Win(s, id)
    case Refused => Goto(s, id, Reread)
    case Reread => Goto(s, id, RereadSeen(s.record))
    case RereadSeen(owner) => Settle(s, id, owner)
  }

  function Apply(s: State, e: Event): State
    requires Enabled(s, e)
  {
    match e
    case Begin(id, i, kind) => s.(calls := s.calls[id := Call(i, kind, if kind.Claim? then ClaimRead else RemoveRead)])
    case Step(id) => StepState(s, id)
    case CallFails(id) => Goto(s, id, if s.calls[id].pc.Creating? then Refused else Threw)
  }

  /** Every instance that was told it owns the deployment is the one the cluster records. */
  ghost predicate OwnersRecorded(s: State) {
    forall i :: i in s.claimed ==> s.record == Some(i)
  }

  // ---- Exactly when one step keeps the owners recorded ----

  /** A caller is about to be told that it owns the deployment. */
  predicate AboutToWin(c: Call) {
    c.pc.Created? || ((c.pc.ClaimSeen? || c.pc.RereadSeen?) && c.pc.owner == Some(c.instance))
  }

  /** The record still says what the call read: a winner is recorded, a delete hits no foreign owner. */
  predicate Fresh(s: State, id: nat)
    requires id in s.calls
  {
    var c := s.calls[id];
    && (AboutToWin(c) ==> s.record == Some(c.instance))
    && (c.pc.Deleting? ==> s.record.None? || s.record.value == Holder(c) || s.record.value !in s.claimed)
  }

  lemma StepKeepsOwnersIffFresh(s: State, e: Event)
    requires OwnersRecorded(s) && Enabled(s, e)
    ensures OwnersRecorded(Apply(s, e)) <==> (e.Step? ==> Fresh(s, e.call))
  {
    var t := Apply(s, e);
    if e.Step? {
      var c := s.calls[e.call];
      if AboutToWin(c) { assert c.instance in t.claimed; }
      if c.pc.Deleting? && s.record.Some? && s.record.value in s.claimed && s.record.value != Holder(c) {
        assert s.record.value in t.claimed;
      }
    }
  }

  // ---- The discipline of the callers ----

  /** `id` is a call that has not settled. */
  predicate Live(s: State, id: nat) { id in s.calls && !Settled(s.calls[id].pc) }

  /** The call is there to remove the record of `i`. */
  predicate Removes(c: Call, i: nat) { !c.kind.Claim? && Holder(c) == i }

  /** `id` is not a live call that removes the record of `i`. */
  predicate Spares(s: State, id: nat, i: nat) { Live(s, id) ==> !Removes(s.calls[id], i) }

  /** `id` is not a live call of `i`. */
  predicate Foreign(s: State, id: nat, i: nat) { Live(s, id) ==> s.calls[id].instance != i }

  /**
   * Nothing races a removal: while a release or takeover is to remove the
   * record of an instance, no other call of that instance and no other removal
   * of its record is under way. Calls of other instances are free.
   */
  ghost predicate Disciplined(s: State, e: Event) {
    match e
    case Begin(_, i, kind) =>
      match kind {
        case Claim => forall id :: Spares(s, id, i)
        case Release => forall id :: Foreign(s, id, i) && Spares(s, id, i)
        case TakeOver(from) => forall id :: Foreign(s, id, from) && Spares(s, id, from) && Spares(s, id, i)
      }
    case _ => true
  }

  predicate InClaim(pc: Pc) {
    pc.ClaimRead? || pc.ClaimSeen? || pc.Creating? || pc.Created? || pc.Refused? || pc.Reread? || pc.RereadSeen?
  }

  predicate CallOk(s: State, id: nat)
    requires id in s.calls
  {
    var c := s.calls[id];
    && (!Settled(c.pc) ==> (c.kind.Claim? ==> InClaim(c.pc)) && (c.kind.Release? ==> !InClaim(c.pc)))
    && (AboutToWin(c) ==> s.record == Some(c.instance))
    && (c.pc.Deleting? ==> s.record == Some(Holder(c)))
    && (c.pc.RemoveSeen? && c.pc.owner == Some(Holder(c)) ==> s.record == Some(Holder(c)))
  }

  /** No other call of the instance whose record `a` removes, and no other removal of it. */
  predicate Apart(s: State, a: nat, b: nat) {
    Live(s, a) && Live(s, b) && a != b && !s.calls[a].kind.Claim? ==>
      s.calls[b].instance != Holder(s.calls[a]) && !Removes(s.calls[b], Holder(s.calls[a]))
  }

  ghost predicate Inv(s: State) {
    && OwnersRecorded(s)
    && (forall id :: id in s.calls ==> CallOk(s, id))
    && (forall a, b :: Apart(s, a, b))
  }

  /** Under the discipline no call ever acts on an outdated reading of the record. */
  lemma DisciplinedIsFresh(s: State, e: Event)
    requires Inv(s) && Enabled(s, e)
    ensures e.Step? ==> Fresh(s, e.call)
  {
    if e.Step? { assert CallOk(s, e.call); }
  }

  /** A call's own step. */
  lemma OwnStep(s: State, e: Event, id: nat)
    requires Enabled(s, e) && e.call == id && (e.Begin? || CallOk(s, id))
    ensures CallOk(Apply(s, e), id)
  {
  }

  /** Another call's step: only a delete can take away what this one has read, and then the two are not apart. */
  lemma OtherStep(s: State, e: Event, id: nat)
    requires Enabled(s, e) && e.call != id && id in s.calls && CallOk(s, id)
    requires !e.Begin? ==> CallOk(s, e.call) && Apart(s, e.call, id)
    ensures CallOk(Apply(s, e), id)
  {
  }

  /** A beginning joins only calls it is apart from, and no step brings calls together. */
  lemma ApartStep(s: State, e: Event, a: nat, b: nat)
    requires Enabled(s, e) && Disciplined(s, e) && Apart(s, a, b)
    ensures Apart(Apply(s, e), a, b)
  {
    if e.Begin? {
      assert e.kind.Claim? ==> Spares(s, a, e.instance);
      assert e.kind.Release? ==> Foreign(s, b, e.instance) && Spares(s, a, e.instance) && Spares(s, b, e.instance);
      assert e.kind.TakeOver? ==>
        && Foreign(s, b, e.kind.from) && Spares(s, b, e.kind.from)
        && Spares(s, a, e.kind.from) && Spares(s, a, e.instance);
    }
  }

  lemma InvStep(s: State, e: Event)
    requires Inv(s) && Enabled(s, e) && Disciplined(s, e)
    ensures Inv(Apply(s, e))
  {
    var t := Apply(s, e);
    forall id | id in t.calls ensures CallOk(t, id) {
      if e.call == id { OwnStep(s, e, id); } else { OtherStep(s, e, id); }
    }
    DisciplinedIsFresh(s, e);
    StepKeepsOwnersIffFresh(s, e);
    forall a, b ensures Apart(t, a, b) { ApartStep(s, e, a, b); }
  }

  /** Any recorded owner to begin with, and no call under way. */
  predicate Init(s: State) {
    s.calls == map[] && s.claimed == {}
  }

  ghost predicate Run(states: seq<State>, events: seq<Event>) {
    && |states| == |events| + 1
    && Init(states[0])
    && forall k :: 0 <= k < |events| ==> Enabled(states[k], events[k]) && states[k + 1] == Apply(states[k], events[k])
  }

  lemma {:induction false} DisciplinedRun(states: seq<State>, events: seq<Event>, k: nat)
    requires Run(states, events) && k < |states|
    requires forall j :: 0 <= j < k ==> Disciplined(states[j], events[j])
    ensures Inv(states[k])
  {
    if k > 0 {
      DisciplinedRun(states, events, k - 1);
      InvStep(states[k - 1], events[k - 1]);
    }
  }

  /** In every disciplined run at most one instance owns the deployment, and the record names it. */
  lemma OneOwner(states: seq<State>, events: seq<Event>, k: nat, a: nat, b: nat)
    requires Run(states, events) && k < |states|
    requires forall j :: 0 <= j < k ==> Disciplined(states[j], events[j])
    requires a in states[k].claimed && b in states[k].claimed
    ensures a == b && states[k].record == Some(a)
  {
    DisciplinedRun(states, events, k);
  }

  /** Any run at all keeps its owners recorded throughout exactly when none of its steps is outdated. */
  lemma {:induction false} OwnersRecordedIffFresh(states: seq<State>, events: seq<Event>, n: nat)
    requires Run(states, events) && n < |states|
    ensures (forall k :: 0 <= k <= n ==> OwnersRecorded(states[k]))
      <==> (forall k :: 0 <= k < n && events[k].Step? ==> Fresh(states[k], events[k].call))
  {
    if n > 0 {
      OwnersRecordedIffFresh(states, events, n - 1);
      var m := n - 1;
      assert Enabled(states[m], events[m]) && states[n] == Apply(states[m], events[m]);
      if OwnersRecorded(states[m]) {
        StepKeepsOwnersIffFresh(states[m], events[m]);
        assert OwnersRecorded(states[n]) <==> (events[m].Step? ==> Fresh(states[m], events[m].call));
      }
      assert (forall k :: 0 <= k <= n ==> OwnersRecorded(states[k]))
        <==> (forall k :: 0 <= k <= m ==> OwnersRecorded(states[k])) && OwnersRecorded(states[n]);
      assert (forall k :: 0 <= k < n && events[k].Step? ==> Fresh(states[k], events[k].call))
        <==> (forall k :: 0 <= k < m && events[k].Step? ==> Fresh(states[k], events[k].call)) && (events[m].Step? ==> Fresh(states[m], events[m].call));
    }
  }

  // ---- Why a takeover must not race the owner's release ----

  /** The discipline lets neither of the two begin while the other is under way. */
  lemma RaceIsUndisciplined(s: State, a: nat, b: nat, i: nat, from: nat)
    requires Live(s, a)
    ensures s.calls[a] == Call(from, Release, s.calls[a].pc) ==> !Disciplined(s, Begin(b, i, TakeOver(from)))
    ensures s.calls[a] == Call(i, TakeOver(from), s.calls[a].pc) ==> !Disciplined(s, Begin(b, from, Release))
  {
    if s.calls[a] == Call(from, Release, s.calls[a].pc) { assert !Foreign(s, a, from); }
    if s.calls[a] == Call(i, TakeOver(from), s.calls[a].pc) { assert !Spares(s, a, from); }
  }

  /** Three calls under way: 1 releases, 2 takes over from 1, 3 claims. */
  function Three(record: Option<nat>, claimed: set<nat>, release: Pc, takeOver: Pc, claim: Pc): State {
    State(record, map[0 := Call(1, Release, release), 1 := Call(2, TakeOver(1), takeOver), 2 := Call(3, Claim, claim)], claimed)
  }

  /** `t` follows `s` by some steps of the three calls. */
  ghost predicate Leads(s: State, t: State, calls: seq<nat>)
    decreases |calls|
  {
    if calls == [] then s == t
    else Enabled(s, Step(calls[0])) && Leads(StepState(s, calls[0]), t, calls[1..])
  }

  lemma TakeOverReads()
    ensures Leads(Three(Some(1), {1}, RemoveRead, RemoveRead, ClaimRead), Three(Some(1), {1}, RemoveRead, Deleting, ClaimRead), [1, 1])
  {
    var s0 := Three(Some(1), {1}, RemoveRead, RemoveRead, ClaimRead);
    var s1 := Three(Some(1), {1}, RemoveRead, RemoveSeen(Some(1)), ClaimRead);
    var s2 := Three(Some(1), {1}, RemoveRead, Deleting, ClaimRead);
    assert StepState(s0, 1) == s1 && StepState(s1, 1) == s2;
    assert [1, 1][1..] == [1] && [1][1..] == [];
    assert Leads(s2, s2, []) && Leads(s1, s2, [1]);
  }

  lemma OwnerReleases()
    ensures Leads(Three(Some(1), {1}, RemoveRead, Deleting, ClaimRead), Three(None, {}, Deleted, Deleting, ClaimRead), [0, 0, 0])
  {
    var s0 := Three(Some(1), {1}, RemoveRead, Deleting, ClaimRead);
    var s1 := Three(Some(1), {1}, RemoveSeen(Some(1)), Deleting, ClaimRead);
    var s2 := Three(Some(1), {1}, Deleting, Deleting, ClaimRead);
    var s3 := Three(None, {}, Deleted, Deleting, ClaimRead);
    assert StepState(s0, 0) == s1 && StepState(s1, 0) == s2 && StepState(s2, 0) == s3;
    assert [0, 0, 0][1..] == [0, 0] && [0, 0][1..] == [0] && [0][1..] == [];
    assert Leads(s3, s3, []) && Leads(s2, s3, [0]) && Leads(s1, s3, [0, 0]);
  }

  lemma ThirdClaims()
    ensures Leads(Three(None, {}, Deleted, Deleting, ClaimRead), Three(Some(3), {3}, Deleted, Deleting, Succeeded), [2, 2, 2, 2])
  {
    var s0 := Three(None, {}, Deleted, Deleting, ClaimRead);
    var s1 := Three(None, {}, Deleted, Deleting, ClaimSeen(None));
    var s2 := Three(None, {}, Deleted, Deleting, Creating);
    var s3 := Three(Some(3), {}, Deleted, Deleting, Created);
    var s4 := Three(Some(3), {3}, Deleted, Deleting, Succeeded);
    assert StepState(s0, 2) == s1 && StepState(s1, 2) == s2 && StepState(s2, 2) == s3 && StepState(s3, 2) == s4;
    assert [2, 2, 2, 2][1..] == [2, 2, 2] && [2, 2, 2][1..] == [2, 2] && [2, 2][1..] == [2] && [2][1..] == [];
    assert Leads(s4, s4, []) && Leads(s3, s4, [2]) && Leads(s2, s4, [2, 2]) && Leads(s1, s4, [2, 2, 2]);
  }

  /** Instance 1 owns the deployment and 2 takes it over; between 2's reading and 2's delete, 1 releases and 3
      claims. The delete then removes the record of 3, which has been told that it owns the deployment. */
  lemma TakeOverRace()
    ensures
      var start := Three(Some(1), {1}, RemoveRead, RemoveRead, ClaimRead);
      var read := Three(Some(1), {1}, RemoveRead, Deleting, ClaimRead);
      var released := Three(None, {}, Deleted, Deleting, ClaimRead);
      var claimed := Three(Some(3), {3}, Deleted, Deleting, Succeeded);
      && Leads(start, read, [1, 1]) && Leads(read, released, [0, 0, 0]) && Leads(released, claimed, [2, 2, 2, 2])
      && OwnersRecorded(start) && OwnersRecorded(claimed) && !OwnersRecorded(StepState(claimed, 1))
  {
    TakeOverReads();
    OwnerReleases();
    ThirdClaims();
    var claimed := Three(Some(3), {3}, Deleted, Deleting, Succeeded);
    assert 3 in StepState(claimed, 1).claimed;
  }
}
