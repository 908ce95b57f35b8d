/**
 * The operation lock of the sandbox slot pool.
 *
 * Every slot is a ConfigMap shared by all daemons. An operation takes the slot's lock by creating the
 * ConfigMap with the lock inside, or by a compare-and-swap on `resourceVersion`, and gives it up by a
 * second compare-and-swap or by deleting the ConfigMap. A daemon that restarts first releases the locks
 * its previous process left behind.
 *
 * One event is one kubectl call together with the code up to the next `await`; other daemons may take
 * any number of steps between two events of an operation.
 */
module SlotLock {
  import opened Basics

  type Slot = nat

  /** `data.operation`: the daemon and the operation that hold the lock. */
  datatype Lock = Lock(instance: nat, op: nat)

  datatype Lease = Lease(version: nat, key: string, operation: Option<Lock>)

  /** Where an operation stands between two awaits. */
  datatype Pc =
    | Queued                       // awaiting recoverLeases()
    | Reading                      // about to read the lease of its slot
    | Acquiring(version: nat)      // lease read, ours and unlocked; compare-and-swap next
    | Working                      // inside work()
    | Finishing                    // work() done; about to re-read the lease
    | Unlocking(version: nat)      // lease read and owned; releasing compare-and-swap next
    | Failed                       // in the catch handler, about to read the lease
    | FailUnlocking(version: nat)  // catch handler read its own lock; releasing next
    | Done

  /** `held`: this operation wrote its lock into the slot and has not removed it. */
  datatype Op = Op(instance: nat, key: string, slot: Option<Slot>, pc: Pc, held: bool)

  /** Progress of readLeases() over the pool in one process. */
  datatype Recovery =
    | NotRecovered
    | Scanning(next: nat)
    | Clearing(next: nat, version: nat, lock: Lock)
    | Recovered

  /** `since`: the first operation id this process can have issued. */
  datatype Daemon = Daemon(recovery: Recovery, since: nat)

  datatype State = State(
    pool: nat,
    leases: map<Slot, Lease>,
    nextVersion: nat,
    ops: map<nat, Op>,
    nextOp: nat,
    daemons: map<nat, Daemon>)

  datatype Event =
    | Boot(instance: nat)                                     // first start, restart or crash
    | Begin(instance: nat, key: string, recorded: Option<Slot>)  // operation()
    | Resume(op: nat)                                         // recoverLeases() resolved
    | ReadLease(op: nat)
    | Acquire(op: nat)
    | Create(op: nat, slot: Slot)                             // lease() created the ConfigMap
    | Delete(op: nat)                                         // expireRecord() deleted it
    | WorkDone(op: nat)
    | ReadOwned(op: nat)
    | Unlock(op: nat)
    | CallFailed(op: nat)                                     // any call failed without applying
    | CatchRead(op: nat)
    | CatchUnlock(op: nat)
    | CatchGiveUp(op: nat)                                    // the handler's own call failed
    | Mirror(slot: Slot)                                      // writeMirror() by any daemon
    | ScanStart(instance: nat)
    | ScanRead(instance: nat)
    | ScanClear(instance: nat)
    | ScanFailed(instance: nat)

  function LockOf(s: State, id: nat): Lock
    requires id in s.ops
  {
    Lock(s.ops[id].instance, id)
  }

  predicate At(s: State, id: nat, pc: Pc) {
    id in s.ops && s.ops[id].pc == pc
  }

  /** The lease of the operation's slot, if it has a slot and the slot is leased. */
  function LeaseOf(s: State, id: nat): Option<Lease>
    requires id in s.ops
  {
    match s.ops[id].slot
    case None => None
    case Some(slot) => if slot in s.leases then Some(s.leases[slot]) else None
  }

  predicate Enabled(s: State, e: Event) {
    match e
    case Boot(i) => true
    case Begin(i, _, _) => i in s.daemons
    case Resume(id) => At(s, id, Queued) && s.ops[id].instance in s.daemons && s.daemons[s.ops[id].instance].recovery.Recovered?
    case ReadLease(id) => At(s, id, Reading) && s.ops[id].slot.Some?
    case Acquire(id) => id in s.ops && s.ops[id].pc.Acquiring? && s.ops[id].slot.Some?
    case Create(id, slot) => At(s, id, Working) && s.ops[id].slot.None? && slot !in s.leases
    case Delete(id) => At(s, id, Working) && s.ops[id].slot.Some? && s.ops[id].slot.value in s.leases
    case WorkDone(id) => At(s, id, Working)
    case ReadOwned(id) => At(s, id, Finishing) && s.ops[id].slot.Some?
    case Unlock(id) => id in s.ops && s.ops[id].pc.Unlocking? && s.ops[id].slot.Some?
    case CallFailed(id) => id in s.ops && !s.ops[id].pc.Failed? && !s.ops[id].pc.FailUnlocking? && !s.ops[id].pc.Done?
    case CatchRead(id) => At(s, id, Failed)
    case CatchUnlock(id) => id in s.ops && s.ops[id].pc.FailUnlocking? && s.ops[id].slot.Some?
    case CatchGiveUp(id) => id in s.ops && (s.ops[id].pc.Failed? || s.ops[id].pc.FailUnlocking?)
    case Mirror(slot) => slot in s.leases
    case ScanStart(i) => i in s.daemons && s.daemons[i].recovery.NotRecovered?
    case ScanRead(i) => i in s.daemons && s.daemons[i].recovery.Scanning?
    case ScanClear(i) => i in s.daemons && s.daemons[i].recovery.Clearing?
    case ScanFailed(i) => i in s.daemons && (s.daemons[i].recovery.Scanning? || s.daemons[i].recovery.Clearing?)
  }

  function SetOp(s: State, id: nat, op: Op): State {
    s.(ops := s.ops[id := op])
  }

  function SetPc(s: State, id: nat, pc: Pc): State
    requires id in s.ops
  {
    SetOp(s, id, s.ops[id].(pc := pc))
  }

  /** Writes a lease; the API server gives every write a version never used before. */
  function Put(s: State, slot: Slot, key: string, operation: Option<Lock>): State {
    s.(leases := s.leases[slot := Lease(s.nextVersion, key, operation)], nextVersion := s.nextVersion + 1)
  }

  function SetRecovery(s: State, i: nat, r: Recovery): State
    requires i in s.daemons
  {
    s.(daemons := s.daemons[i := s.daemons[i].(recovery := r)])
  }

  /** A new process of daemon `i`: its operations are gone, what they wrote stays. */
  function BootState(s: State, i: nat): State {
    s.(ops := map id | id in s.ops && s.ops[id].instance != i :: s.ops[id],
       daemons := s.daemons[i := Daemon(NotRecovered, s.nextOp)])
  }

  /** The unlock patch: tests the version and the lock, then empties the lock. */
  function TryUnlock(s: State, slot: Slot, version: nat, lock: Lock): Option<State> {
    if slot in s.leases && s.leases[slot].version == version && s.leases[slot].operation == Some(lock)
    then Some(Put(s, slot, s.leases[slot].key, None))
    else None
  }

  /** Releases the lock of operation `id`, which then moves to `pc`. */
  function Release(s: State, id: nat, version: nat, ok: Pc, conflict: Pc): State
    requires id in s.ops && s.ops[id].slot.Some?
  {
    match TryUnlock(s, s.ops[id].slot.value, version, LockOf(s, id))
    case None => SetPc(s, id, conflict)
    case Some(t) => SetOp(t, id, s.ops[id].(pc := ok, held := false))
  }

  function Apply(s: State, e: Event): State
    requires Enabled(s, e)
  {
    match e
    case Boot(i) => BootState(s, i)
    case Begin(i, key, slot) =>
      SetOp(s, s.nextOp, Op(i, key, slot, Queued, false)).(nextOp := s.nextOp + 1)
    case Resume(id) => SetPc(s, id, if s.ops[id].slot.Some? then Reading else Working)
    case ReadLease(id) =>
      var lease := LeaseOf(s, id);
      if lease.Some? && lease.value.key == s.ops[id].key && lease.value.operation.None?
      then SetPc(s, id, Acquiring(lease.value.version))
      else SetPc(s, id, Failed)
    case Acquire(id) =>
      var lease := LeaseOf(s, id);
      if lease.Some? && lease.value.version == s.ops[id].pc.version
      then SetOp(Put(s, s.ops[id].slot.value, lease.value.key, Some(LockOf(s, id))), id, s.ops[id].(pc := Working, held := true))
      else SetPc(s, id, Failed)
    case Create(id, slot) =>
      SetOp(Put(s, slot, s.ops[id].key, Some(LockOf(s, id))), id, s.ops[id].(slot := Some(slot), held := true))
    case Delete(id) =>
      SetOp(s.(leases := s.leases - {s.ops[id].slot.value}), id, s.ops[id].(slot := None, held := false))
    case WorkDone(id) => SetPc(s, id, if s.ops[id].slot.Some? then Finishing else Done)
    case ReadOwned(id) =>
      var lease := LeaseOf(s, id);
      if lease.Some? && lease.value.key == s.ops[id].key && lease.value.operation == Some(LockOf(s, id))
      then SetPc(s, id, Unlocking(lease.value.version))
      else SetPc(s, id, Failed)
    case Unlock(id) => Release(s, id, s.ops[id].pc.version, Done, Failed)
    case CallFailed(id) => SetPc(s, id, Failed)
    case CatchRead(id) =>
      var lease := LeaseOf(s, id);
      if lease.Some? && lease.value.key == s.ops[id].key && lease.value.operation == Some(LockOf(s, id))
      then SetPc(s, id, FailUnlocking(lease.value.version))
      else SetPc(s, id, Done)
    case CatchUnlock(id) => Release(s, id, s.ops[id].pc.version, Done, Done)
    case CatchGiveUp(id) => SetPc(s, id, Done)
    case Mirror(slot) => Put(s, slot, s.leases[slot].key, s.leases[slot].operation)
    case ScanStart(i) => SetRecovery(s, i, Scanning(0))
    case ScanRead(i) =>
      var next := s.daemons[i].recovery.next;
      if next >= s.pool then SetRecovery(s, i, Recovered)
      else if next in s.leases && s.leases[next].operation.Some? && s.leases[next].operation.value.instance == i
      then SetRecovery(s, i, Clearing(next, s.leases[next].version, s.leases[next].operation.value))
      else SetRecovery(s, i, Scanning(next + 1))
    case ScanClear(i) =>
      var r := s.daemons[i].recovery;
      (match TryUnlock(s, r.next, r.version, r.lock)
       case None => SetRecovery(s, i, NotRecovered)
       case Some(t) => SetRecovery(t, i, Scanning(r.next + 1)))
    case ScanFailed(i) => SetRecovery(s, i, NotRecovered)
  }

  /** No daemon runs yet; slots may be leased, but no lease is locked. */
  predicate Init(s: State) {
    && s.ops == map[] && s.daemons == map[]
    && forall slot :: slot in s.leases ==> s.leases[slot].version < s.nextVersion && s.leases[slot].operation.None?
  }

  // ---- Invariant ----

  /** Past the recovery gate: the operation may already have taken a lock. */
  predicate Started(pc: Pc) {
    !pc.Queued? && !pc.Failed? && !pc.FailUnlocking? && !pc.Done?
  }

  /** An operation that holds its lock finds it, under its own key, in its slot. */
  predicate Holding(s: State, id: nat)
    requires id in s.ops
  {
    s.ops[id].held ==>
      && LeaseOf(s, id).Some?
      && LeaseOf(s, id).value.operation == Some(LockOf(s, id))
      && LeaseOf(s, id).value.key == s.ops[id].key
  }

  predicate OpOk(s: State, id: nat)
    requires id in s.ops
  {
    var op := s.ops[id];
    && id < s.nextOp
    && op.instance in s.daemons
    && s.daemons[op.instance].since <= id
    && Holding(s, id)
    && (op.held || Started(op.pc) ==> s.daemons[op.instance].recovery.Recovered?)
    && (op.pc.Working? || op.pc.Finishing? || op.pc.Unlocking? ==> op.held == op.slot.Some?)
    && (op.pc.Queued? || op.pc.Reading? || op.pc.Acquiring? ==> !op.held)
    && (op.pc.Acquiring? ==>
          && op.pc.version < s.nextVersion
          && (LeaseOf(s, id).Some? && LeaseOf(s, id).value.version == op.pc.version ==>
                LeaseOf(s, id).value.operation.None? && LeaseOf(s, id).value.key == op.key))
  }

  /** A lock in the cluster is that of a live operation, or a leftover of an earlier process. */
  predicate LeaseOk(s: State, slot: Slot)
    requires slot in s.leases
  {
    var lease := s.leases[slot];
    && lease.version < s.nextVersion
    && (lease.operation.Some? ==>
          var lock := lease.operation.value;
          && lock.instance in s.daemons && lock.op < s.nextOp
          && (if lock.op in s.ops
              then s.ops[lock.op].held && s.ops[lock.op].instance == lock.instance && s.ops[lock.op].slot == Some(slot)
              else lock.op < s.daemons[lock.instance].since))
  }

  /** Whether `slot` carries a lock of an earlier process of daemon `i`. */
  predicate StaleAt(s: State, i: nat, slot: Slot) {
    && i in s.daemons && slot in s.leases && s.leases[slot].operation.Some?
    && s.leases[slot].operation.value.instance == i
    && s.leases[slot].operation.value.op < s.daemons[i].since
  }

  function Scanned(s: State, r: Recovery): nat {
    match r
    case NotRecovered => 0
    case Scanning(next) => if next < s.pool then next else s.pool
    case Clearing(next, _, _) => if next < s.pool then next else s.pool
    case Recovered => s.pool
  }

  predicate DaemonOk(s: State, i: nat)
    requires i in s.daemons
  {
    && s.daemons[i].since <= s.nextOp
    && (s.daemons[i].recovery.Clearing? ==> s.daemons[i].recovery.lock.instance == i)
    && forall slot :: 0 <= slot < Scanned(s, s.daemons[i].recovery) ==> !StaleAt(s, i, slot)
  }

  ghost predicate Inv(s: State) {
    && (forall id :: id in s.ops ==> OpOk(s, id))
    && (forall slot :: slot in s.leases ==> LeaseOk(s, slot))
    && (forall i :: i in s.daemons ==> DaemonOk(s, i))
  }

  /** The operation an event belongs to, if it belongs to one. */
  function Actor(e: Event): Option<nat> {
    match e
    case Resume(id) => Some(id)
    case ReadLease(id) => Some(id)
    case Acquire(id) => Some(id)
    case Create(id, _) => Some(id)
    case Delete(id) => Some(id)
    case WorkDone(id) => Some(id)
    case ReadOwned(id) => Some(id)
    case Unlock(id) => Some(id)
    case CallFailed(id) => Some(id)
    case CatchRead(id) => Some(id)
    case CatchUnlock(id) => Some(id)
    case CatchGiveUp(id) => Some(id)
    case _ => None
  }

  /** The events by what they write: a lock taken or a lease deleted, a lock released, or nothing. */
  predicate Takes(e: Event) { e.Acquire? || e.Create? || e.Delete? }

  predicate Releases(e: Event) { e.Unlock? || e.CatchUnlock? }

  lemma OwnTake(s: State, e: Event, id: nat)
    requires Enabled(s, e) && Actor(e) == Some(id) && OpOk(s, id) && Takes(e)
    ensures OpOk(Apply(s, e), id)
  {
  }

  lemma OwnRelease(s: State, e: Event, id: nat)
    requires Enabled(s, e) && Actor(e) == Some(id) && OpOk(s, id) && Releases(e)
    ensures OpOk(Apply(s, e), id)
  {
  }

  lemma OwnMove(s: State, e: Event, id: nat)
    requires Enabled(s, e) && Actor(e) == Some(id) && OpOk(s, id) && !Takes(e) && !Releases(e)
    requires LeaseOf(s, id).Some? ==> LeaseOk(s, s.ops[id].slot.value)
    ensures OpOk(Apply(s, e), id)
  {
  }

  /** What an operation's own step does to its standing. */
  lemma OwnStep(s: State, e: Event, id: nat)
    requires Enabled(s, e) && Actor(e) == Some(id) && OpOk(s, id)
    requires LeaseOf(s, id).Some? ==> LeaseOk(s, s.ops[id].slot.value)
    ensures OpOk(Apply(s, e), id)
  {
    if Takes(e) { OwnTake(s, e, id); } else if Releases(e) { OwnRelease(s, e, id); } else { OwnMove(s, e, id); }
  }

  lemma OtherTake(s: State, e: Event, id: nat)
    requires Enabled(s, e) && Takes(e) && Actor(e) != Some(id)
    requires id in s.ops && OpOk(s, id) && OpOk(s, Actor(e).value)
    ensures OpOk(Apply(s, e), id)
  {
  }

  lemma OtherRelease(s: State, e: Event, id: nat)
    requires Enabled(s, e) && Releases(e) && Actor(e) != Some(id)
    requires id in s.ops && OpOk(s, id) && OpOk(s, Actor(e).value)
    ensures OpOk(Apply(s, e), id)
  {
  }

  lemma OtherMove(s: State, e: Event, id: nat)
    requires Enabled(s, e) && Actor(e).Some? && !Takes(e) && !Releases(e) && Actor(e) != Some(id)
    requires id in s.ops && OpOk(s, id)
    ensures OpOk(Apply(s, e), id)
  {
  }

  /** What one operation does leaves every other operation's standing as it was. */
  lemma OtherStep(s: State, e: Event, id: nat)
    requires Enabled(s, e) && Actor(e).Some? && Actor(e).value != id
    requires id in s.ops && OpOk(s, id) && OpOk(s, Actor(e).value)
    ensures OpOk(Apply(s, e), id)
  {
    if Takes(e) { OtherTake(s, e, id); } else if Releases(e) { OtherRelease(s, e, id); } else { OtherMove(s, e, id); }
  }

  /** Daemons starting, recovering or mirroring records disturb no operation of theirs or of others. */
  lemma DaemonEventStep(s: State, e: Event, id: nat)
    requires Enabled(s, e) && Actor(e).None? && id in Apply(s, e).ops
    requires id in s.ops ==> OpOk(s, id)
    requires e.Begin? ==> DaemonOk(s, e.instance) && s.nextOp !in s.ops
    requires e.ScanClear? ==> DaemonOk(s, e.instance)
    ensures OpOk(Apply(s, e), id)
  {
  }

  /** The events whose kubectl call can write or remove a lease. */
  predicate Writes(e: Event) {
    e.Acquire? || e.Create? || e.Delete? || e.Unlock? || e.CatchUnlock? || e.Mirror? || e.ScanClear?
  }

  lemma ReadersWriteNothing(s: State, e: Event)
    requires Enabled(s, e) && !Writes(e)
    ensures Apply(s, e).leases == s.leases && Apply(s, e).nextVersion == s.nextVersion
  {
  }

  lemma LeaseStep(s: State, e: Event, slot: Slot)
    requires Enabled(s, e) && slot in Apply(s, e).leases
    requires slot in s.leases ==> LeaseOk(s, slot)
    requires Actor(e).Some? ==> OpOk(s, Actor(e).value)
    ensures LeaseOk(Apply(s, e), slot)
  {
    if !Writes(e) {
      ReadersWriteNothing(s, e);
    } else {
      WriterLeaseStep(s, e, slot);
    }
  }

  lemma TakeLeaseStep(s: State, e: Event, slot: Slot)
    requires Enabled(s, e) && Takes(e) && slot in Apply(s, e).leases
    requires slot in s.leases ==> LeaseOk(s, slot)
    requires OpOk(s, Actor(e).value)
    ensures LeaseOk(Apply(s, e), slot)
  {
  }

  lemma ReleaseLeaseStep(s: State, e: Event, slot: Slot)
    requires Enabled(s, e) && Releases(e) && slot in Apply(s, e).leases
    requires slot in s.leases ==> LeaseOk(s, slot)
    requires OpOk(s, Actor(e).value)
    ensures LeaseOk(Apply(s, e), slot)
  {
  }

  lemma OutsideLeaseStep(s: State, e: Event, slot: Slot)
    requires Enabled(s, e) && (e.Mirror? || e.ScanClear?) && slot in Apply(s, e).leases
    requires slot in s.leases ==> LeaseOk(s, slot)
    ensures LeaseOk(Apply(s, e), slot)
  {
  }

  lemma WriterLeaseStep(s: State, e: Event, slot: Slot)
    requires Enabled(s, e) && Writes(e) && slot in Apply(s, e).leases
    requires slot in s.leases ==> LeaseOk(s, slot)
    requires Actor(e).Some? ==> OpOk(s, Actor(e).value)
    ensures LeaseOk(Apply(s, e), slot)
  {
    if Takes(e) { TakeLeaseStep(s, e, slot); }
    else if Releases(e) { ReleaseLeaseStep(s, e, slot); }
    else { OutsideLeaseStep(s, e, slot); }
  }

  /** An operation's event makes no lock stale: the lock it takes names an operation of this process. */
  lemma ActorMakesNothingStale(s: State, e: Event, j: nat, slot: Slot)
    requires Enabled(s, e) && Actor(e).Some? && OpOk(s, Actor(e).value)
    requires StaleAt(Apply(s, e), j, slot)
    ensures StaleAt(s, j, slot)
  {
    if !Writes(e) { ReadersWriteNothing(s, e); }
  }

  /** No event makes a lock stale for daemon `j`, except its own restart, which also restarts its scan. */
  lemma NotStaleStep(s: State, e: Event, j: nat, slot: Slot)
    requires Enabled(s, e) && e != Boot(j)
    requires Actor(e).Some? ==> OpOk(s, Actor(e).value)
    requires StaleAt(Apply(s, e), j, slot)
    ensures StaleAt(s, j, slot)
  {
    if Actor(e).Some? { ActorMakesNothingStale(s, e, j, slot); }
  }

  lemma BootedOk(s: State, j: nat)
    ensures DaemonOk(BootState(s, j), j)
  {
  }

  predicate Scans(e: Event) { e.ScanStart? || e.ScanRead? || e.ScanClear? || e.ScanFailed? }

  /** Only scans move a daemon's recovery on, and none past a stale lock. */
  lemma ScanStep(s: State, e: Event, j: nat)
    requires Enabled(s, e) && Scans(e) && j in s.daemons && DaemonOk(s, j)
    ensures var r, t := s.daemons[j].recovery, Apply(s, e).daemons[j].recovery;
            && Apply(s, e).daemons[j].since == s.daemons[j].since
            && (t.Clearing? ==> t.lock.instance == j)
            && (forall x: nat :: Scanned(s, r) <= x < Scanned(s, t) ==> !StaleAt(Apply(s, e), j, x))
  {
  }

  lemma NoScanStep(s: State, e: Event, j: nat)
    requires Enabled(s, e) && !Scans(e) && e != Boot(j) && j in Apply(s, e).daemons
    ensures j in s.daemons && Apply(s, e).daemons[j] == s.daemons[j]
  {
  }

  /** Operation ids and the pool: neither shrinks. */
  lemma SizesStep(s: State, e: Event)
    requires Enabled(s, e)
    ensures s.nextOp <= Apply(s, e).nextOp && Apply(s, e).pool == s.pool
  {
  }

  lemma DaemonStep(s: State, e: Event, j: nat)
    requires Enabled(s, e) && j in Apply(s, e).daemons
    requires e != Boot(j) ==> DaemonOk(s, j)
    requires Actor(e).Some? ==> OpOk(s, Actor(e).value)
    ensures DaemonOk(Apply(s, e), j)
  {
    if e == Boot(j) {
      BootedOk(s, j);
    } else {
      SizesStep(s, e);
      if Scans(e) { ScanStep(s, e, j); } else { NoScanStep(s, e, j); }
      forall x | StaleAt(Apply(s, e), j, x) ensures StaleAt(s, j, x) { NotStaleStep(s, e, j, x); }
    }
  }

  lemma OpsStep(s: State, e: Event, id: nat)
    requires Inv(s) && Enabled(s, e) && id in Apply(s, e).ops
    ensures OpOk(Apply(s, e), id)
  {
    if Actor(e).None? { DaemonEventStep(s, e, id); }
    else if Actor(e).value == id { OwnStep(s, e, id); }
    else { OtherStep(s, e, id); }
  }

  lemma InvStep(s: State, e: Event)
    requires Inv(s) && Enabled(s, e)
    ensures Inv(Apply(s, e))
  {
    var t := Apply(s, e);
    forall id | id in t.ops ensures OpOk(t, id) { OpsStep(s, e, id); }
    forall slot | slot in t.leases ensures LeaseOk(t, slot) { LeaseStep(s, e, slot); }
    forall j | j in t.daemons ensures DaemonOk(t, j) { DaemonStep(s, e, j); }
  }

  /** One entry per state and per event between two states. */
  ghost predicate Run(states: seq<State>, events: seq<Event>) {
    && |states| == |events| + 1
    && Init(states[0])
    && forall k :: 0 <= k < |events| ==> Enabled(states[k], events[k]) && states[k + 1] == Apply(states[k], events[k])
  }

  lemma {:induction false} RunKeepsInv(states: seq<State>, events: seq<Event>, k: nat)
    requires Run(states, events) && k < |states|
    ensures Inv(states[k])
  {
    if k > 0 {
      RunKeepsInv(states, events, k - 1);
      InvStep(states[k - 1], events[k - 1]);
    }
  }

  // ---- What the lock promises, in every run ----

  /** Two operations that have taken and not yet released a lock work on different slots, and each finds
      its own lock and key in its slot: owned() cannot fail with "ownership changed" while it works. */
  lemma MutualExclusion(states: seq<State>, events: seq<Event>, k: nat, a: nat, b: nat)
    requires Run(states, events) && k < |states|
    requires a in states[k].ops && b in states[k].ops
    requires states[k].ops[a].held && states[k].ops[b].held
    ensures a != b ==> states[k].ops[a].slot != states[k].ops[b].slot
    ensures LeaseOf(states[k], a).Some?
    ensures LeaseOf(states[k], a).value.operation == Some(LockOf(states[k], a))
    ensures LeaseOf(states[k], a).value.key == states[k].ops[a].key
  {
    RunKeepsInv(states, events, k);
    assert OpOk(states[k], a) && OpOk(states[k], b);
  }

  /** Every operation inside work() on a slot, or on its way to release it, holds the slot's lock. */
  lemma WorkersHold(states: seq<State>, events: seq<Event>, k: nat, id: nat)
    requires Run(states, events) && k < |states| && id in states[k].ops
    requires states[k].ops[id].pc.Working? || states[k].ops[id].pc.Finishing? || states[k].ops[id].pc.Unlocking?
    ensures states[k].ops[id].held <==> states[k].ops[id].slot.Some?
  {
    RunKeepsInv(states, events, k);
    assert OpOk(states[k], id);
  }

  /** Once a daemon has recovered, each lock in its name belongs to one of its live operations: restart
      leaves no lock of the dead process behind and releases none of the new one. */
  lemma RecoveredLocksAreLive(states: seq<State>, events: seq<Event>, k: nat, i: nat, slot: Slot)
    requires Run(states, events) && k < |states|
    requires i in states[k].daemons && states[k].daemons[i].recovery.Recovered?
    requires slot < states[k].pool && slot in states[k].leases
    requires states[k].leases[slot].operation.Some? && states[k].leases[slot].operation.value.instance == i
    ensures
      var id := states[k].leases[slot].operation.value.op;
      id in states[k].ops && states[k].ops[id].instance == i && states[k].ops[id].held && states[k].ops[id].slot == Some(slot)
  {
    var s := states[k];
    RunKeepsInv(states, events, k);
    assert DaemonOk(s, i) && LeaseOk(s, slot);
    assert !StaleAt(s, i, slot);
  }

  /** An operation that is over keeps its lock only when its failure handler could not release it: the handler's
      own call failed, or its compare-and-swap lost to another write. */
  lemma LeakedByTheHandler(s: State, e: Event, id: nat)
    requires Enabled(s, e) && Actor(e) == Some(id) && OpOk(s, id)
    requires At(Apply(s, e), id, Done) && Apply(s, e).ops[id].held
    ensures e == CatchGiveUp(id) || e == CatchUnlock(id)
  {
    if Takes(e) { OwnTake(s, e, id); } else if Releases(e) { OwnRelease(s, e, id); }
  }

  function LockAt(s: State, slot: Slot): Option<Lock> {
    if slot in s.leases then s.leases[slot].operation else None
  }

  /** A lock is written only where there is none, by the operation it names: the operation creates the lease,
      or its compare-and-swap finds the lease it read, still unlocked. */
  lemma LockTaken(s: State, e: Event, slot: Slot)
    requires Inv(s) && Enabled(s, e)
    requires LockAt(Apply(s, e), slot) != LockAt(s, slot) && LockAt(Apply(s, e), slot).Some?
    ensures LockAt(s, slot) == None
    ensures Actor(e).Some? && LockAt(Apply(s, e), slot) == Some(LockOf(s, Actor(e).value))
    ensures (e == Create(Actor(e).value, slot) && slot !in s.leases) || e == Acquire(Actor(e).value)
  {
    if !Writes(e) {
      ReadersWriteNothing(s, e);
    } else if Actor(e).Some? {
      assert OpOk(s, Actor(e).value);
      ActorLocks(s, e, slot);
    }
  }

  lemma ActorLocks(s: State, e: Event, slot: Slot)
    requires Enabled(s, e) && Actor(e).Some? && OpOk(s, Actor(e).value)
    requires LockAt(Apply(s, e), slot) != LockAt(s, slot) && LockAt(Apply(s, e), slot).Some?
    ensures LockAt(s, slot) == None && LockAt(Apply(s, e), slot) == Some(LockOf(s, Actor(e).value))
    ensures (e == Create(Actor(e).value, slot) && slot !in s.leases) || e == Acquire(Actor(e).value)
  {
    if !Writes(e) { ReadersWriteNothing(s, e); }
  }

  /** A lock disappears only when its holder releases it or deletes the lease, or when a daemon that has not
      recovered yet clears a lock of its own dead process. */
  lemma LockGone(s: State, e: Event, slot: Slot)
    requires Inv(s) && Enabled(s, e)
    requires LockAt(Apply(s, e), slot) != LockAt(s, slot) && LockAt(s, slot).Some?
    ensures LockAt(Apply(s, e), slot) == None
    ensures match e
            case Delete(id) => s.ops[id].held && LockAt(s, slot) == Some(LockOf(s, id))
            case Unlock(id) => s.ops[id].held && LockAt(s, slot) == Some(LockOf(s, id))
            case CatchUnlock(id) => s.ops[id].held && LockAt(s, slot) == Some(LockOf(s, id))
            case ScanClear(i) => !s.daemons[i].recovery.Recovered? && LockAt(s, slot).value.instance == i
                                 && LockAt(s, slot).value.op !in s.ops
            case _ => false
  {
    assert LeaseOk(s, slot);
    if !Writes(e) {
      ReadersWriteNothing(s, e);
    } else if e.ScanClear? {
      ScanSparesLiveLocks(s, e.instance, slot);
    } else if Actor(e).Some? {
      assert OpOk(s, Actor(e).value);
      ActorLetsGo(s, e, slot);
    }
  }

  lemma ActorLetsGo(s: State, e: Event, slot: Slot)
    requires Enabled(s, e) && Actor(e).Some? && OpOk(s, Actor(e).value) && slot in s.leases && LeaseOk(s, slot)
    requires LockAt(Apply(s, e), slot) != LockAt(s, slot) && LockAt(s, slot).Some?
    ensures LockAt(Apply(s, e), slot) == None && (e.Delete? || Releases(e))
    ensures s.ops[Actor(e).value].held && LockAt(s, slot) == Some(LockOf(s, Actor(e).value))
  {
    if !Writes(e) { ReadersWriteNothing(s, e); }
  }

  lemma ScanSparesLiveLocks(s: State, i: nat, slot: Slot)
    requires Inv(s) && Enabled(s, ScanClear(i))
    requires LockAt(Apply(s, ScanClear(i)), slot) != LockAt(s, slot)
    ensures LockAt(s, slot).Some? && LockAt(s, slot).value.instance == i && LockAt(s, slot).value.op !in s.ops
  {
    assert DaemonOk(s, i) && LeaseOk(s, slot);
    assert forall id :: id in s.ops && s.ops[id].held ==> OpOk(s, id);
  }

  /** recover() must finish before the process starts operations: a scan that reaches the slot of a live
      operation of the same daemon empties that operation's lock. */
  lemma LateScanReleasesLiveLock(s: State, id: nat)
    requires Inv(s) && id in s.ops && s.ops[id].held && s.ops[id].slot.Some? && s.ops[id].slot.value < s.pool
    ensures
      var i, slot := s.ops[id].instance, s.ops[id].slot.value;
      i in s.daemons &&
      var late := SetRecovery(s, i, Scanning(slot));
      var read := Apply(late, ScanRead(i));
      Enabled(read, ScanClear(i)) &&
      var cleared := Apply(read, ScanClear(i));
      cleared.ops[id].held && LockAt(cleared, slot) == None
  {
    assert OpOk(s, id);
  }
}
