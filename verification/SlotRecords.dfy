/**
 * Sandbox records and slot leases on one daemon.
 *
 * A record says which slot it occupies; the slot's ConfigMap says which record occupies it. Operations change
 * the one and then, an await later, the other. One operation runs per record at a time, operations of different
 * records interleave at every await, and restoring into a full pool starts the expiry of another record.
 */
module SlotRecords {
  import opened Basics

  type Key = string
  type Slot = nat

  /** The operations, with the record fields that steer them. */
  datatype Verb =
    | Create
    | Build
    | Wake(snapshotSlot: Option<Slot>)
    | Expire
    | Delete(retained: Option<Slot>)
    | Other                              // sleep, update, snapshot of a leased sandbox

  /** What lease() is followed by, and what expireRecord() is followed by. */
  datatype Next = Work | Restore | ExpireThenRemove
  datatype After = Finish | Remove | Rethrow

  datatype Pc =
    | Entering(verb: Verb)
    | Counting(preferred: Option<Slot>)                       // wake: is the pool full?
    | Evicting(victim: Key, task: nat, preferred: Option<Slot>)
    | Probing(retained: Slot)                                 // delete: is the old slot free?
    | Scanning(unread: set<Slot>, busy: set<Slot>, preferred: Option<Slot>, next: Next)
    | Creating(at: Slot, busy: set<Slot>, preferred: Option<Slot>, next: Next)
    | Created(slot: Slot, next: Next)                         // the lease exists; the reply is under way
    | Working                                                 // build, power: touches neither slot nor lease
    | Restoring
    | Expiring(after: After)
    | Deleted(after: After)                                   // the lease is gone; the reply is under way
    | Removing

  datatype Op = Op(task: nat, pc: Pc)

  /** `records`: the slot field of every stored record; `creates`: create() calls awaiting the namespace. */
  datatype State = State(
    pool: nat,
    records: map<Key, Option<Slot>>,
    leases: map<Slot, Key>,
    ops: map<Key, Op>,
    nextTask: nat,
    creates: map<nat, Key>)

  datatype Event =
    | CallCreate(call: nat, key: Key)     // create(): the store has no such record
    | BeginCreate(call: nat)              // the namespace is known; operation() runs
    | Begin(key: Key, verb: Verb)
    | Read(key: Key, slot: Slot)          // one of the parallel reads of lease()
    | Step(key: Key)
    | Evict(key: Key, victim: Key)        // wake: expire() another record and await its task
    | Throws(key: Key)

  function Slots(pool: nat): set<Slot> {
    if pool == 0 then {} else Slots(pool - 1) + {pool - 1}
  }

  predicate Enabled(s: State, e: Event) {
    match e
    case CallCreate(id, k) => id !in s.creates && k !in s.records
    case BeginCreate(id) => id in s.creates && s.creates[id] !in s.ops
    case Begin(k, verb) => k in s.records && k !in s.ops && !verb.Create?
    case Read(k, slot) => k in s.ops && s.ops[k].pc.Scanning? && slot in s.ops[k].pc.unread && (slot in s.leases ==> s.leases[slot] != k)
    case Step(k) => k in s.ops && k in s.records
                    && (s.ops[k].pc.Scanning? ==> s.ops[k].pc.unread == {})
                    && (s.ops[k].pc.Evicting? ==> s.ops[k].pc.victim !in s.ops || s.ops[s.ops[k].pc.victim].task != s.ops[k].pc.task)
    case Evict(k, victim) => k in s.ops && s.ops[k].pc.Counting? && victim in s.records && victim !in s.ops
    case Throws(k) => k in s.ops && !s.ops[k].pc.Created? && !s.ops[k].pc.Deleted?
  }

  function Goto(s: State, k: Key, pc: Pc): State
    requires k in s.ops
  {
    s.(ops := s.ops[k := s.ops[k].(pc := pc)])
  }

  /** The task settles. */
  function Over(s: State, k: Key): State {
    s.(ops := map j | j in s.ops && j != k :: s.ops[j])
  }

  function Start(s: State, k: Key, verb: Verb): State {
    s.(ops := s.ops[k := Op(s.nextTask, Entering(verb))], nextTask := s.nextTask + 1)
  }

  function LeasePc(s: State, preferred: Option<Slot>, next: Next): Pc {
    Scanning(Slots(s.pool), {}, preferred, next)
  }

  function Enter(s: State, k: Key, verb: Verb): State
    requires k in s.ops && k in s.records
  {
    var leased := s.records[k].Some?;
    match verb
    case Create => Goto(s, k, LeasePc(s, None, Work))
    case Build => Goto(s, k, if leased then Working else LeasePc(s, None, Work))
    case Wake(slot) => Goto(s, k, if leased then Working else Counting(slot))
    case Expire => if leased then Goto(s, k, Expiring(Finish)) else Over(s, k)
    case Delete(retained) =>
      Goto(s, k, if leased then Expiring(Remove) else if retained.Some? then Probing(retained.value) else Removing)
    case Other => Goto(s, k, Working)
  }

  function StepState(s: State, k: Key): State
    requires Enabled(s, Step(k))
  {
    match s.ops[k].pc
    case Entering(verb) => Enter(s, k, verb)
    case Counting(preferred) => Goto(s, k, LeasePc(s, preferred, Restore))
    case Evicting(_, _, preferred) => Goto(s, k, LeasePc(s, preferred, Restore))
    case Probing(retained) =>
      Goto(s, k, if retained in s.leases then Removing else LeasePc(s, Some(retained), ExpireThenRemove))
    case Scanning(_, busy, preferred, next) => Goto(s, k, Creating(0, busy, preferred, next))
    case Creating(at, busy, preferred, next) =>
      if at >= s.pool then Over(s, k)
      else if at in busy || (preferred.Some? && preferred.value != at) || at in s.leases
      then Goto(s, k, Creating(at + 1, busy, preferred, next))
      else Goto(s, k, Created(at, next)).(leases := s.leases[at := k])
    case Created(slot, next) =>
      Goto(s, k, match next
                 case Work => Working
                 case Restore => Restoring
                 case ExpireThenRemove => Expiring(Remove)).(records := s.records[k := Some(slot)])
    case Working => Over(s, k)
    case Restoring => Goto(s, k, Working)
    case Expiring(after) =>
      if s.records[k].Some? && s.records[k].value in s.leases
      then Goto(s, k, Deleted(after)).(leases := s.leases - {s.records[k].value})
      else Over(s, k)
    case Deleted(after) =>
      (if after.Remove? then Goto(s, k, Removing) else Over(s, k)).(records := s.records[k := None])
    case Removing => Over(s, k).(records := s.records - {k})
  }

  function Apply(s: State, e: Event): State
    requires Enabled(s, e)
  {
    match e
    case CallCreate(id, k) => s.(creates := s.creates[id := k])
    case BeginCreate(id) =>
      var k := s.creates[id];
      Start(s, k, Create).(records := s.records[k := None], creates := s.creates - {id})
    case Begin(k, verb) => Start(s, k, verb)
    case Read(k, slot) =>
      var pc := s.ops[k].pc;
      Goto(s, k, Scanning(pc.unread - {slot}, if slot in s.leases then pc.busy + {slot} else pc.busy, pc.preferred, pc.next))
    case Step(k) => StepState(s, k)
    case Evict(k, victim) =>
      Goto(Start(s, victim, Expire), k, Evicting(victim, s.nextTask, s.ops[k].pc.preferred))
    case Throws(k) => if s.ops[k].pc.Restoring? then Goto(s, k, Expiring(Rethrow)) else Over(s, k)
  }

  // ---- Agreement of records and leases ----

  predicate AtDeleted(s: State, k: Key) { k in s.ops && s.ops[k].pc.Deleted? }

  predicate AtCreated(s: State, k: Key, slot: Slot) {
    k in s.ops && s.ops[k].pc.Created? && s.ops[k].pc.slot == slot
  }

  /** A record that names a slot holds its lease, unless it has just deleted it. */
  predicate RecordLeased(s: State, k: Key)
    requires k in s.records
  {
    s.records[k].Some? && !AtDeleted(s, k) ==> s.records[k].value in s.leases && s.leases[s.records[k].value] == k
  }

  /** A lease belongs to a record that names its slot, or is just about to. */
  predicate LeaseRecorded(s: State, slot: Slot)
    requires slot in s.leases
  {
    var k := s.leases[slot];
    && k in s.records
    && if s.records[k].Some? then s.records[k].value == slot && !AtDeleted(s, k) else AtCreated(s, k, slot)
  }

  predicate OpOk(s: State, k: Key)
    requires k in s.ops
  {
    var pc := s.ops[k].pc;
    && k in s.records
    && (pc.Counting? || pc.Evicting? || pc.Probing? || pc.Scanning? || pc.Creating? || pc.Created? || pc.Removing? ==> s.records[k].None?)
    && (pc.Created? ==> pc.slot in s.leases && s.leases[pc.slot] == k)
    && (pc.Entering? && pc.verb.Create? ==> s.records[k].None?)
    && (pc.Restoring? || pc.Expiring? || pc.Deleted? ==> s.records[k].Some?)
  }

  ghost predicate Agreement(s: State) {
    && (forall k :: k in s.records ==> RecordLeased(s, k))
    && (forall slot :: slot in s.leases ==> LeaseRecorded(s, slot))
  }

  ghost predicate Inv(s: State) {
    && Agreement(s)
    && (forall k :: k in s.ops ==> OpOk(s, k))
  }

  /** create() checked the store before it awaited the namespace and does not check again. Starting its
      operation keeps records and leases in agreement exactly when no record of that key has taken a slot
      in between. */
  predicate CreateIsFresh(s: State, e: Event) {
    e.BeginCreate? && e.call in s.creates && s.creates[e.call] in s.records ==> s.records[s.creates[e.call]].None?
  }

  /** An operation's own step, and what it needs to know of its record. */
  lemma OwnStep(s: State, k: Key)
    requires Enabled(s, Step(k)) && OpOk(s, k) && RecordLeased(s, k)
    ensures k in StepState(s, k).ops ==> OpOk(StepState(s, k), k)
    ensures k in StepState(s, k).records ==> RecordLeased(StepState(s, k), k)
  {
    OwnOp(s, k);
    OwnRecord(s, k);
  }

  lemma OwnOp(s: State, k: Key)
    requires Enabled(s, Step(k)) && OpOk(s, k) && RecordLeased(s, k)
    ensures k in StepState(s, k).ops ==> OpOk(StepState(s, k), k)
  {
    if s.ops[k].pc.Entering? { EnterOk(s, k, s.ops[k].pc.verb); }
  }

  lemma EnterOk(s: State, k: Key, verb: Verb)
    requires k in s.ops && k in s.records && OpOk(s, k) && s.ops[k].pc == Entering(verb)
    ensures k in Enter(s, k, verb).ops ==> OpOk(Enter(s, k, verb), k)
  {
  }

  lemma OwnRecord(s: State, k: Key)
    requires Enabled(s, Step(k)) && OpOk(s, k) && RecordLeased(s, k)
    ensures k in StepState(s, k).records ==> RecordLeased(StepState(s, k), k)
  {
  }

  /** A step of `j` changes only `j`'s record, operation and lease. */
  lemma OpFrame(s: State, j: Key, k: Key)
    requires Enabled(s, Step(j)) && j != k
    ensures SameOp(s, StepState(s, j), k)
  {
    if s.ops[j].pc.Entering? { EnterFrame(s, j, s.ops[j].pc.verb, k); }
  }

  predicate SameOp(s: State, t: State, k: Key) { (k in t.ops <==> k in s.ops) && (k in s.ops ==> t.ops[k] == s.ops[k]) }

  lemma EnterFrame(s: State, j: Key, verb: Verb, k: Key)
    requires j in s.ops && j in s.records && j != k
    ensures SameOp(s, Enter(s, j, verb), k)
  {
  }

  lemma RecordFrame(s: State, j: Key, k: Key)
    requires Enabled(s, Step(j)) && j != k
    ensures k in StepState(s, j).records <==> k in s.records
    ensures k in s.records ==> StepState(s, j).records[k] == s.records[k]
  {
  }

  lemma LeaseFrame(s: State, j: Key)
    requires Enabled(s, Step(j)) && OpOk(s, j) && RecordLeased(s, j)
    ensures
      var t := StepState(s, j);
      && (forall x :: x in t.leases ==> (if x in s.leases then t.leases[x] == s.leases[x] else t.leases[x] == j))
      && (forall x :: x in s.leases && x !in t.leases ==> s.leases[x] == j)
  {
  }

  lemma StepOthers(s: State, j: Key, k: Key)
    requires Enabled(s, Step(j)) && OpOk(s, j) && RecordLeased(s, j) && j != k
    requires k in s.ops ==> OpOk(s, k)
    requires k in s.records ==> RecordLeased(s, k)
    ensures k in StepState(s, j).ops ==> OpOk(StepState(s, j), k)
    ensures k in StepState(s, j).records ==> RecordLeased(StepState(s, j), k)
  {
    OpFrame(s, j, k);
    RecordFrame(s, j, k);
    LeaseFrame(s, j);
  }

  lemma StepLease(s: State, j: Key, slot: Slot)
    requires Enabled(s, Step(j)) && OpOk(s, j) && RecordLeased(s, j) && slot in StepState(s, j).leases
    requires slot in s.leases ==> LeaseRecorded(s, slot)
    ensures LeaseRecorded(StepState(s, j), slot)
  {
    if slot in s.leases && s.leases[slot] != j {
      OpFrame(s, j, s.leases[slot]);
      RecordFrame(s, j, s.leases[slot]);
      LeaseFrame(s, j);
    }
  }

  /** Calls, beginnings, reads and failures change no lease, and no record but that of a new create. */
  lemma OtherEvents(s: State, e: Event, k: Key)
    requires Enabled(s, e) && CreateIsFresh(s, e) && !e.Step?
    requires k in s.ops ==> OpOk(s, k)
    requires k in s.records ==> RecordLeased(s, k)
    ensures k in Apply(s, e).ops ==> OpOk(Apply(s, e), k)
    ensures k in Apply(s, e).records ==> RecordLeased(Apply(s, e), k)
  {
  }

  lemma OtherEventsLease(s: State, e: Event, slot: Slot)
    requires Enabled(s, e) && CreateIsFresh(s, e) && !e.Step? && slot in Apply(s, e).leases
    requires slot in s.leases ==> LeaseRecorded(s, slot)
    ensures LeaseRecorded(Apply(s, e), slot)
  {
  }

  lemma InvStep(s: State, e: Event)
    requires Inv(s) && Enabled(s, e) && CreateIsFresh(s, e)
    ensures Inv(Apply(s, e))
  {
    var t := Apply(s, e);
    if e.Step? { assert OpOk(s, e.key) && RecordLeased(s, e.key); }
    forall k ensures (k in t.ops ==> OpOk(t, k)) && (k in t.records ==> RecordLeased(t, k)) {
      if !e.Step? { OtherEvents(s, e, k); }
      else if e.key == k { OwnStep(s, k); }
      else { StepOthers(s, e.key, k); }
    }
    forall slot | slot in t.leases ensures LeaseRecorded(t, slot) {
      if e.Step? { StepLease(s, e.key, slot); } else { OtherEventsLease(s, e, slot); }
    }
  }

  /** No slot is leased, no record has one, nothing runs. */
  predicate Init(s: State) {
    && s.leases == map[] && s.ops == map[] && s.creates == map[]
    && forall k :: k in s.records ==> s.records[k].None?
  }

  ghost predicate Run(states: seq<State>, events: seq<Event>) {
    && |states| == |events| + 1
    && Init(states[0])
    && forall k :: 0 <= k < |events| ==> Enabled(states[k], events[k]) && states[k + 1] == Apply(states[k], events[k])
  }

  /** Up to state `n`, no create of a key begins over a leased record of that key. */
  ghost predicate FreshCreates(states: seq<State>, events: seq<Event>, n: nat)
    requires n < |states| == |events| + 1
  {
    forall k :: 0 <= k < n ==> CreateIsFresh(states[k], events[k])
  }

  lemma {:induction false} RunKeepsInv(states: seq<State>, events: seq<Event>, k: nat)
    requires Run(states, events) && k < |states| && FreshCreates(states, events, k)
    ensures Inv(states[k])
  {
    if k > 0 {
      RunKeepsInv(states, events, k - 1);
      InvStep(states[k - 1], events[k - 1]);
    }
  }

  /** Each record's slot carries a lease with that record's key, except between deleting the lease and clearing
      the field; and a key holds no second slot. */
  lemma RecordsHoldTheirLeases(states: seq<State>, events: seq<Event>, n: nat, k: Key)
    requires Run(states, events) && n < |states| && FreshCreates(states, events, n)
    requires k in states[n].records && states[n].records[k].Some? && !AtDeleted(states[n], k)
    ensures
      var s, slot := states[n], states[n].records[k].value;
      slot in s.leases && s.leases[slot] == k && forall x :: x in s.leases && s.leases[x] == k ==> x == slot
  {
    RunKeepsInv(states, events, n);
    var s := states[n];
    assert RecordLeased(s, k);
    forall x | x in s.leases && s.leases[x] == k ensures x == s.records[k].value { assert LeaseRecorded(s, x); }
  }

  /** No two records share a slot, except with a record that has already deleted its lease. */
  lemma SlotsAreNotShared(states: seq<State>, events: seq<Event>, n: nat, a: Key, b: Key)
    requires Run(states, events) && n < |states| && FreshCreates(states, events, n)
    requires a in states[n].records && b in states[n].records && a != b
    requires states[n].records[a].Some? && states[n].records[a] == states[n].records[b]
    ensures AtDeleted(states[n], a) || AtDeleted(states[n], b)
  {
    RunKeepsInv(states, events, n);
    assert RecordLeased(states[n], a) && RecordLeased(states[n], b);
  }

  /** When no operation runs, leases and slot fields are exactly inverse to each other. */
  lemma QuiescentAgreement(states: seq<State>, events: seq<Event>, n: nat, k: Key, slot: Slot)
    requires Run(states, events) && n < |states| && FreshCreates(states, events, n) && states[n].ops == map[]
    ensures
      var s := states[n];
      (k in s.records && s.records[k] == Some(slot)) <==> (slot in s.leases && s.leases[slot] == k)
  {
    RunKeepsInv(states, events, n);
    var s := states[n];
    if k in s.records { assert RecordLeased(s, k); }
    if slot in s.leases { assert LeaseRecorded(s, slot); }
  }

  /** lease() never finds its own key in the pool: on one daemon "already leased on another instance" is never
      thrown. */
  lemma LeaseNeverFindsItself(states: seq<State>, events: seq<Event>, n: nat, k: Key, slot: Slot)
    requires Run(states, events) && n < |states| && FreshCreates(states, events, n)
    requires k in states[n].ops && states[n].ops[k].pc.Scanning? && slot in states[n].leases
    ensures states[n].leases[slot] != k
  {
    RunKeepsInv(states, events, n);
    assert OpOk(states[n], k) && LeaseRecorded(states[n], slot);
  }

  // ---- Two overlapping creates of one key ----

  /** Beginning a create over a leased record orphans the lease: the condition above is also necessary. */
  lemma CreateKeepsAgreementIffFresh(s: State, id: nat)
    requires Inv(s) && Enabled(s, BeginCreate(id))
    ensures Agreement(Apply(s, BeginCreate(id))) <==> CreateIsFresh(s, BeginCreate(id))
  {
    var e := BeginCreate(id);
    var t := Apply(s, e);
    var k := s.creates[id];
    if CreateIsFresh(s, e) {
      InvStep(s, e);
    } else {
      assert RecordLeased(s, k);
      assert !LeaseRecorded(t, s.records[k].value);
    }
  }

  /** Any run keeps records and leases in agreement throughout if and only if none of its creates begins over a
      leased record of its key. */
  lemma {:induction false} AgreementThroughoutIffFresh(states: seq<State>, events: seq<Event>, n: nat)
    requires Run(states, events) && n < |states|
    ensures (forall k :: 0 <= k <= n ==> Agreement(states[k])) <==> FreshCreates(states, events, n)
  {
    if n == 0 {
      RunKeepsInv(states, events, 0);
    } else {
      AgreementThroughoutIffFresh(states, events, n - 1);
      var m := n - 1;
      if FreshCreates(states, events, m) {
        RunKeepsInv(states, events, m);
        NextAgreesIffFresh(states[m], events[m]);
        assert states[n] == Apply(states[m], events[m]);
      }
      assert FreshCreates(states, events, n) <==> FreshCreates(states, events, m) && CreateIsFresh(states[m], events[m]);
    }
  }

  lemma NextAgreesIffFresh(s: State, e: Event)
    requires Inv(s) && Enabled(s, e)
    ensures Agreement(Apply(s, e)) <==> CreateIsFresh(s, e)
  {
    if e.BeginCreate? { CreateKeepsAgreementIffFresh(s, e.call); } else { InvStep(s, e); }
  }

  ghost predicate Reaches(s: State, t: State, events: seq<Event>)
    decreases |events|
  {
    if events == [] then s == t else Enabled(s, events[0]) && Reaches(Apply(s, events[0]), t, events[1..])
  }

  /** One slot, key "a", its first create under way and a second one still awaiting the namespace. */
  function Midway(record: Option<Slot>, leases: map<Slot, Key>, pc: Pc): State {
    State(1, map["a" := record], leases, map["a" := Op(0, pc)], 1, map[1 := "a"])
  }

  lemma BothCreatesPassTheCheck()
    ensures Reaches(State(1, map[], map[], map[], 0, map[]), Midway(None, map[], Entering(Create)), [CallCreate(0, "a"), CallCreate(1, "a"), BeginCreate(0)])
  {
    var es := [CallCreate(0, "a"), CallCreate(1, "a"), BeginCreate(0)];
    var s0 := State(1, map[], map[], map[], 0, map[]);
    var s1 := State(1, map[], map[], map[], 0, map[0 := "a"]);
    var s2 := State(1, map[], map[], map[], 0, map[0 := "a", 1 := "a"]);
    var s3 := Midway(None, map[], Entering(Create));
    assert Apply(s0, es[0]) == s1 && Apply(s1, es[1]) == s2;
    assert Apply(s2, es[2]) == s3;
    assert es[1..] == [es[1], es[2]] && es[1..][1..] == [es[2]] && es[1..][1..][1..] == [];
    assert Reaches(s3, s3, []) && Reaches(s2, s3, [es[2]]) && Reaches(s1, s3, es[1..]);
  }

  lemma FirstCreateScans()
    ensures Reaches(Midway(None, map[], Entering(Create)), Midway(None, map[], Creating(0, {}, None, Work)), [Step("a"), Read("a", 0), Step("a")])
  {
    var s3 := Midway(None, map[], Entering(Create));
    var s4 := Midway(None, map[], Scanning({0}, {}, None, Work));
    var s5 := Midway(None, map[], Scanning({}, {}, None, Work));
    var s6 := Midway(None, map[], Creating(0, {}, None, Work));
    assert Slots(1) == {0} by { assert Slots(0) == {}; }
    ThreeSteps(s3, s4, s5, s6, Step("a"), Read("a", 0), Step("a"));
  }

  lemma FirstCreateLeases()
    ensures Reaches(Midway(None, map[], Creating(0, {}, None, Work)), Midway(Some(0), map[0 := "a"], Working).(ops := map[]), [Step("a"), Step("a"), Step("a")])
  {
    var s6 := Midway(None, map[], Creating(0, {}, None, Work));
    var s7 := Midway(None, map[0 := "a"], Created(0, Work));
    var s8 := Midway(Some(0), map[0 := "a"], Working);
    var s9 := s8.(ops := map[]);
    assert Apply(s6, Step("a")) == s7 by { assert s7.leases == s6.leases[0 := "a"]; }
    assert Apply(s7, Step("a")) == s8;
    WorkEnds(s8);
    ThreeSteps(s6, s7, s8, s9, Step("a"), Step("a"), Step("a"));
  }

  lemma WorkEnds(s: State)
    requires s == Midway(Some(0), map[0 := "a"], Working)
    ensures Enabled(s, Step("a")) && Apply(s, Step("a")) == s.(ops := map[])
  {
    assert Over(s, "a").ops == map[];
  }

  lemma ThreeSteps(s: State, t: State, u: State, v: State, d: Event, e: Event, f: Event)
    requires Enabled(s, d) && t == Apply(s, d) && Enabled(t, e) && u == Apply(t, e) && Enabled(u, f) && v == Apply(u, f)
    ensures Reaches(s, v, [d, e, f])
  {
    assert [d, e, f][1..] == [e, f] && [e, f][1..] == [f] && [f][1..] == [];
    assert Reaches(v, v, []) && Reaches(u, v, [f]) && Reaches(t, v, [e, f]);
  }

  /** Two creates of one key pass the store check together. The first leases slot 0 and ends; the second then
      overwrites its record, and the lease of slot 0 belongs to a record without a slot. */
  lemma OverlappingCreatesOrphanALease()
    ensures
      var start := State(1, map[], map[], map[], 0, map[]);
      var entered := Midway(None, map[], Entering(Create));
      var scanned := Midway(None, map[], Creating(0, {}, None, Work));
      var leased := Midway(Some(0), map[0 := "a"], Working).(ops := map[]);
      && Init(start)
      && Reaches(start, entered, [CallCreate(0, "a"), CallCreate(1, "a"), BeginCreate(0)])
      && Reaches(entered, scanned, [Step("a"), Read("a", 0), Step("a")])
      && Reaches(scanned, leased, [Step("a"), Step("a"), Step("a")])
      && Enabled(leased, BeginCreate(1)) && Agreement(leased) && !Agreement(Apply(leased, BeginCreate(1)))
  {
    BothCreatesPassTheCheck();
    FirstCreateScans();
    FirstCreateLeases();
    var leased := Midway(Some(0), map[0 := "a"], Working).(ops := map[]);
    assert Inv(leased);
    CreateKeepsAgreementIffFresh(leased, 1);
  }
}
