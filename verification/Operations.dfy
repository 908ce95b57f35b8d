/**
 * The durable operation log, `Operations`: at most one active operation per
 * workload, a bounded list of finished ones, one journal row for each finish,
 * and how long each phase was open.
 *
 * Every call reads the clock once. A write to disk may fail where a call makes one.
 */
module Operations {
  import opened Basics

  datatype Phase = Build | ImagePull | Helm | Rollout | Ready

  datatype State = Active | Succeeded | Failed | Interrupted

  datatype Timing = Timing(durationMs: int, startedAt: Option<int>)

  datatype LogEntry = LogEntry(at: int, message: string)

  /** What was asked for; it never changes. */
  datatype Request = Request(repo: string, workload: string, namespace: string, action: string, kind: string,
                             release: string)

  /** What is shown of the progress. */
  datatype Progress = Progress(stage: string, checks: seq<string>, logs: seq<LogEntry>)

  datatype Operation = Operation(
    id: string, request: Request, state: State, progress: Progress,
    createdAt: int, updatedAt: int, phases: map<Phase, Timing>)

  datatype Patch = Patch(stage: Option<string>, state: Option<State>, checks: Option<seq<string>>)

  /** A line of the timings journal. */
  datatype Row = Row(id: string, request: Request, state: State, createdAt: int, finishedAt: int, totalMs: int,
                     phasesMs: map<Phase, int>)

  const KEPT: nat := 100
  const LINES_KEPT: nat := 500
  const MESSAGE_LENGTH: nat := 2000

  // ---- One record ----

  function Closed(t: Timing, now: int): Timing {
    if t.startedAt.None? then t else Timing(t.durationMs + Max(0, now - t.startedAt.value), None)
  }

  function AllClosed(phases: map<Phase, Timing>, now: int): map<Phase, Timing> {
    map p | p in phases :: Closed(phases[p], now)
  }

  function Shown(p: Progress, patch: Patch, message: string, now: int): Progress {
    Progress(
      if patch.stage.Some? then patch.stage.value else p.stage,
      if patch.checks.Some? then patch.checks.value else p.checks,
      if message == "" then p.logs
      else LastN(p.logs + [LogEntry(now, if |message| > MESSAGE_LENGTH then message[..MESSAGE_LENGTH] else message)],
                 LINES_KEPT))
  }

  function Patched(r: Operation, patch: Patch, message: string, now: int): Operation {
    r.(state := if patch.state.Some? then patch.state.value else r.state,
       progress := Shown(r.progress, patch, message, now),
       updatedAt := now)
  }

  predicate Finishes(r: Operation, patch: Patch) {
    r.state == Active && patch.state.Some? && patch.state.value != Active
  }

  /** The record after an update; finishing closes every open phase. */
  function Updated(r: Operation, patch: Patch, message: string, now: int): Operation {
    var q := Patched(r, patch, message, now);
    if Finishes(r, patch) then q.(phases := AllClosed(r.phases, now)) else q
  }

  function RowOf(r: Operation): Row {
    Row(r.id, r.request, r.state, r.createdAt, r.updatedAt, r.updatedAt - r.createdAt,
        map p | p in r.phases :: r.phases[p].durationMs)
  }

  function Marked(r: Operation, phase: Phase, start: bool, now: int): Operation {
    var open := phase in r.phases && r.phases[phase].startedAt.Some?;
    if start == open then r
    else if start then
      r.(phases := r.phases[phase := Timing(if phase in r.phases then r.phases[phase].durationMs else 0, Some(now))])
    else r.(phases := r.phases[phase := Closed(r.phases[phase], now)])
  }

  // ---- Lists of records ----

  /** The records that are active, or those that are not, in order. */
  function Select(records: seq<Operation>, active: bool): seq<Operation> {
    if records == [] then []
    else
      var last := records[|records| - 1];
      Select(records[..|records| - 1], active) + (if last.state.Active? == active then [last] else [])
  }

  /** `flush`: the last finished records, then every active one. */
  function Flushed(records: seq<Operation>): seq<Operation> {
    LastN(Select(records, false), KEPT) + Select(records, true)
  }

  /** The place of the record with this id, or the length of the list. */
  function IndexOf(records: seq<Operation>, id: string): (k: nat)
    ensures k <= |records| && (k < |records| ==> records[k].id == id)
    ensures forall j :: 0 <= j < k ==> records[j].id != id
  {
    if records == [] || records[0].id == id then 0 else 1 + IndexOf(records[1..], id)
  }

  /** The place of the active record of a workload, or the length of the list. */
  function ActiveOf(records: seq<Operation>, repo: string, workload: string): (k: nat)
    ensures k <= |records| && (k < |records| ==> IsActiveOf(records[k], repo, workload))
    ensures forall j :: 0 <= j < k ==> !IsActiveOf(records[j], repo, workload)
  {
    if records == [] || IsActiveOf(records[0], repo, workload) then 0 else 1 + ActiveOf(records[1..], repo, workload)
  }

  predicate IsActiveOf(r: Operation, repo: string, workload: string) {
    r.request.repo == repo && r.request.workload == workload && r.state.Active?
  }

  function Without<T>(s: seq<T>, k: nat): seq<T>
    requires k < |s|
  {
    s[..k] + s[k + 1..]
  }

  // ---- The log as a whole ----

  /** The finished records, the active ones, and the journal rows written so far. */
  datatype Log = Log(done: seq<Operation>, active: seq<Operation>, journal: seq<Row>)

  datatype Event =
    | Create(id: string, request: Request, now: int, written: bool)
    | Update(id: string, patch: Patch, message: string, now: int, journalled: bool)
    | Mark(id: string, phase: Phase, start: bool, now: int)

  function New(id: string, request: Request, now: int): Operation {
    Operation(id, request, Active, Progress("checking", [], []), now, now, map[])
  }

  function Step(log: Log, e: Event): Log {
    match e
    case Create(id, request, now, written) =>
      if ActiveOf(log.active, request.repo, request.workload) < |log.active| || !written then log
      else log.(active := log.active + [New(id, request, now)])
    case Update(id, patch, message, now, journalled) =>
      var d, a := IndexOf(log.done, id), IndexOf(log.active, id);
      if d < |log.done| then
        var r := Updated(log.done[d], patch, message, now);
        if r.state.Active? then log.(done := Without(log.done, d), active := [r] + log.active)
        else log.(done := log.done[d := r])
      else if a < |log.active| then
        var r := Updated(log.active[a], patch, message, now);
        if r.state.Active? then log.(active := log.active[a := r])
        else if !journalled then log
        else Log(LastN(log.done + [r], KEPT), Without(log.active, a), log.journal + [RowOf(r)])
      else log
    case Mark(id, phase, start, now) =>
      var d, a := IndexOf(log.done, id), IndexOf(log.active, id);
      if d == |log.done| && a < |log.active| then
        log.(active := log.active[a := Marked(log.active[a], phase, start, now)])
      else log
  }

  // ---- Runs ----

  function Ids(records: seq<Operation>): (r: seq<string>)
    ensures |r| == |records| && forall k :: 0 <= k < |r| ==> r[k] == records[k].id
  {
    seq(|records|, k requires 0 <= k < |records| => records[k].id)
  }

  function RowIds(rows: seq<Row>): (r: seq<string>)
    ensures |r| == |rows| && forall k :: 0 <= k < |r| ==> r[k] == rows[k].id
  {
    seq(|rows|, k requires 0 <= k < |rows| => rows[k].id)
  }

  predicate Distinct<T(==)>(s: seq<T>) { forall i, j :: 0 <= i < j < |s| ==> s[i] != s[j] }

  predicate SameWorkload(r: Operation, q: Operation) {
    r.request.repo == q.request.repo && r.request.workload == q.request.workload
  }

  /** Different active records are of different workloads. */
  predicate OneEach(active: seq<Operation>) {
    forall i, j :: 0 <= i < j < |active| ==> !SameWorkload(active[i], active[j])
  }

  predicate Uniform(records: seq<Operation>, active: bool) {
    forall k :: 0 <= k < |records| ==> records[k].state.Active? == active
  }

  /** The list as a flush leaves it. */
  predicate Tidy(log: Log) {
    && |log.done| <= KEPT
    && Uniform(log.done, false) && Uniform(log.active, true)
  }

  /** Ids name records: no two records share one. */
  predicate Named(log: Log) {
    && Distinct(Ids(log.done)) && Distinct(Ids(log.active))
    && (forall r <- log.done, q <- log.active :: r.id != q.id)
  }

  /** What was loaded at the start: a tidy list without a row written yet. */
  predicate Initial(log: Log) { Tidy(log) && Named(log) && OneEach(log.active) && log.journal == [] }

  /**
   * `log` is reached from `start`: the finishing order is that of `start`
   * followed by the journal, and `known` are all the ids ever in use.
   */
  ghost predicate Inv(start: Log, log: Log, known: set<string>) {
    var finished := Ids(start.done) + RowIds(log.journal);
    && Tidy(log) && OneEach(log.active)
    && Ids(log.done) == LastN(finished, KEPT)
    && Distinct(finished) && Distinct(Ids(log.active))
    && (forall id <- finished :: id !in Ids(log.active))
    && (forall id :: id in known <==> id in finished || id in Ids(log.active))
  }

  /** Ids are fresh when created, and no update sets a finished record back to active. */
  predicate Allowed(log: Log, known: set<string>, e: Event) {
    match e
    case Create(id, _, _, _) => id !in known
    case Update(id, patch, _, _, _) => patch.state == Some(Active) ==> IndexOf(log.done, id) == |log.done|
    case Mark(_, _, _, _) => true
  }

  /** The ids in use after an event: a creation adds its own unless it joined an active operation or was not written. */
  function Known(log: Log, known: set<string>, e: Event): set<string> {
    if e.Create? && Step(log, e) != log then known + {e.id} else known
  }

  lemma ReplacedKeeps(s: seq<Operation>, k: nat, r: Operation)
    requires k < |s| && r.id == s[k].id && r.request == s[k].request
    ensures Ids(s[k := r]) == Ids(s)
    ensures OneEach(s) ==> OneEach(s[k := r])
  {
  }

  lemma {:induction false} LastNAppend<T>(s: seq<T>, x: T, n: nat)
    requires n > 0
    ensures LastN(LastN(s, n) + [x], n) == LastN(s + [x], n)
  {
  }

  lemma DistinctSnoc(s: seq<string>, x: string)
    requires Distinct(s) && x !in s
    ensures Distinct(s + [x])
  {
  }

  lemma DistinctEnd(a: seq<string>, b: seq<string>)
    requires Distinct(a + b)
    ensures Distinct(b)
  {
    assert forall i :: 0 <= i < |b| ==> b[i] == (a + b)[|a| + i];
  }

  lemma IdsOfLastN(s: seq<Operation>, n: nat)
    ensures Ids(LastN(s, n)) == LastN(Ids(s), n)
  {
  }

  lemma WithoutIs(s: seq<Operation>, k: nat)
    requires k < |s|
    ensures |Without(s, k)| == |s| - 1
    ensures forall i :: 0 <= i < |s| - 1 ==> Without(s, k)[i] == s[if i < k then i else i + 1]
  {
  }

  lemma WithoutIds(s: seq<Operation>, k: nat)
    requires k < |s| && Distinct(Ids(s))
    ensures forall id :: id in Ids(Without(s, k)) <==> id in Ids(s) && id != s[k].id
  {
    var t := Without(s, k);
    WithoutIs(s, k);
    forall id | id in Ids(s) && id != s[k].id
      ensures id in Ids(t)
    {
      var i :| 0 <= i < |s| && Ids(s)[i] == id;
      assert Ids(t)[if i < k then i else i - 1] == id;
    }
    forall id | id in Ids(t)
      ensures id in Ids(s) && id != s[k].id
    {
      var i :| 0 <= i < |t| && Ids(t)[i] == id;
      assert Ids(s)[if i < k then i else i + 1] == id && Ids(s)[k] == s[k].id;
    }
  }

  lemma WithoutKeeps(s: seq<Operation>, k: nat)
    requires k < |s| && Distinct(Ids(s)) && OneEach(s)
    ensures Distinct(Ids(Without(s, k))) && OneEach(Without(s, k))
    ensures forall id :: id in Ids(Without(s, k)) <==> id in Ids(s) && id != s[k].id
  {
    WithoutIs(s, k);
    WithoutIds(s, k);
    var t := Without(s, k);
    forall i, j | 0 <= i < j < |t|
      ensures Ids(t)[i] != Ids(t)[j] && !SameWorkload(t[i], t[j])
    {
      var x, y := if i < k then i else i + 1, if j < k then j else j + 1;
      assert x < y && t[i] == s[x] && t[j] == s[y] && Ids(s)[x] != Ids(s)[y] && !SameWorkload(s[x], s[y]);
    }
  }

  lemma CreateKeepsInv(start: Log, log: Log, known: set<string>, e: Event)
    requires Inv(start, log, known) && e.Create? && Allowed(log, known, e)
    ensures Inv(start, Step(log, e), Known(log, known, e))
  {
    var t := Step(log, e);
    if t != log {
      assert Ids(t.active) == Ids(log.active) + [e.id];
      assert forall k :: 0 <= k < |log.active| ==> !IsActiveOf(log.active[k], e.request.repo, e.request.workload);
    }
  }

  lemma FinishKeepsInv(start: Log, log: Log, known: set<string>, a: nat, r: Operation)
    requires Inv(start, log, known) && a < |log.active| && r.id == log.active[a].id && !r.state.Active?
    ensures Inv(start, Log(LastN(log.done + [r], KEPT), Without(log.active, a), log.journal + [RowOf(r)]), known)
  {
    var finished := Ids(start.done) + RowIds(log.journal);
    var after := Ids(start.done) + RowIds(log.journal + [RowOf(r)]);
    WithoutKeeps(log.active, a);
    assert r.id == Ids(log.active)[a];
    assert after == finished + [r.id];
    assert r.id !in finished;
    DistinctSnoc(finished, r.id);
    IdsOfLastN(log.done + [r], KEPT);
    assert Ids(log.done + [r]) == Ids(log.done) + [r.id];
    LastNAppend(finished, r.id, KEPT);
  }

  lemma ReplaceKeepsInv(start: Log, log: Log, known: set<string>, a: nat, r: Operation)
    requires Inv(start, log, known) && a < |log.active| && r.state.Active?
    requires r.id == log.active[a].id && r.request == log.active[a].request
    ensures Inv(start, log.(active := log.active[a := r]), known)
  {
    ReplacedKeeps(log.active, a, r);
  }

  lemma ReplaceDoneKeepsInv(start: Log, log: Log, known: set<string>, d: nat, r: Operation)
    requires Inv(start, log, known) && d < |log.done| && !r.state.Active?
    requires r.id == log.done[d].id && r.request == log.done[d].request
    ensures Inv(start, log.(done := log.done[d := r]), known)
  {
    ReplacedKeeps(log.done, d, r);
  }

  /** Every allowed event keeps the invariant. */
  lemma InvStep(start: Log, log: Log, known: set<string>, e: Event)
    requires Inv(start, log, known) && Allowed(log, known, e)
    ensures Inv(start, Step(log, e), Known(log, known, e))
  {
    match e
    case Create(_, _, _, _) => CreateKeepsInv(start, log, known, e);
    case Update(id, patch, message, now, _) =>
      var d, a := IndexOf(log.done, id), IndexOf(log.active, id);
      if d < |log.done| {
        ReplaceDoneKeepsInv(start, log, known, d, Updated(log.done[d], patch, message, now));
      } else if a < |log.active| {
        var r := Updated(log.active[a], patch, message, now);
        if r.state.Active? {
          ReplaceKeepsInv(start, log, known, a, r);
        } else {
          FinishKeepsInv(start, log, known, a, r);
        }
      }
    case Mark(id, phase, begin, now) =>
      var a := IndexOf(log.active, id);
      if a < |log.active| {
        ReplaceKeepsInv(start, log, known, a, Marked(log.active[a], phase, begin, now));
      }
  }

  function Run(start: Log, events: seq<Event>): Log
    decreases |events|
  {
    if events == [] then start else Step(Run(start, events[..|events| - 1]), events[|events| - 1])
  }

  function InUse(start: Log, events: seq<Event>): set<string>
    decreases |events|
  {
    if events == [] then (set r <- start.done :: r.id) + (set r <- start.active :: r.id)
    else
      var before := events[..|events| - 1];
      Known(Run(start, before), InUse(start, before), events[|events| - 1])
  }

  ghost predicate AllAllowed(start: Log, events: seq<Event>) {
    forall n: nat :: n < |events| ==> AllowedAt(start, events, n)
  }

  predicate AllowedAt(start: Log, events: seq<Event>, n: nat)
    requires n < |events|
  {
    Allowed(Run(start, events[..n]), InUse(start, events[..n]), events[n])
  }

  lemma AllowedBefore(start: Log, events: seq<Event>)
    requires events != [] && AllAllowed(start, events)
    ensures AllAllowed(start, events[..|events| - 1])
    ensures Allowed(Run(start, events[..|events| - 1]), InUse(start, events[..|events| - 1]), events[|events| - 1])
  {
    var before := events[..|events| - 1];
    assert AllowedAt(start, events, |events| - 1);
    forall n: nat | n < |before|
      ensures AllowedAt(start, before, n)
    {
      assert before[..n] == events[..n] && AllowedAt(start, events, n);
    }
  }

  lemma {:induction false} RunKeepsInv(start: Log, events: seq<Event>)
    requires Initial(start) && AllAllowed(start, events)
    ensures Inv(start, Run(start, events), InUse(start, events))
    decreases |events|
  {
    if events == [] {
      assert Ids(start.done) + RowIds([]) == Ids(start.done);
      assert forall id :: id in Ids(start.done) <==> exists r <- start.done :: r.id == id;
      assert forall id :: id in Ids(start.active) <==> exists r <- start.active :: r.id == id;
    } else {
      AllowedBefore(start, events);
      var before := events[..|events| - 1];
      RunKeepsInv(start, before);
      InvStep(start, Run(start, before), InUse(start, before), events[|events| - 1]);
    }
  }

  /** At most one operation of a workload is active. */
  lemma OneActivePerWorkload(start: Log, events: seq<Event>, i: nat, j: nat)
    requires Initial(start) && AllAllowed(start, events) && i < j < |Run(start, events).active|
    ensures !SameWorkload(Run(start, events).active[i], Run(start, events).active[j])
  {
    RunKeepsInv(start, events);
  }

  /** The finished operations kept are the last hundred to finish, in that order. */
  lemma KeptAreTheLastFinished(start: Log, events: seq<Event>)
    requires Initial(start) && AllAllowed(start, events)
    ensures Ids(Run(start, events).done) == LastN(Ids(start.done) + RowIds(Run(start, events).journal), KEPT)
  {
    RunKeepsInv(start, events);
  }

  function Count(ids: seq<string>, id: string): nat { multiset(ids)[id] }

  lemma {:induction false} DistinctCountsOnce(ids: seq<string>, id: string)
    requires Distinct(ids)
    ensures Count(ids, id) == if id in ids then 1 else 0
  {
    if ids != [] {
      DistinctCountsOnce(ids[1..], id);
      assert ids == [ids[0]] + ids[1..];
    }
  }

  /**
   * Every operation that was ever created (or loaded active) is still active
   * and has no journal row, or has finished and has exactly one: active ones
   * are never evicted, and a finish is journalled once.
   */
  lemma ActiveOrJournalledOnce(start: Log, events: seq<Event>, id: string)
    requires Initial(start) && AllAllowed(start, events)
    requires id in InUse(start, events) && id !in Ids(start.done)
    ensures Count(RowIds(Run(start, events).journal), id)
         == if id in Ids(Run(start, events).active) then 0 else 1
  {
    RunKeepsInv(start, events);
    InvCounts(start, Run(start, events), InUse(start, events), id);
  }

  lemma InvCounts(start: Log, log: Log, known: set<string>, id: string)
    requires Inv(start, log, known) && id in known && id !in Ids(start.done)
    ensures Count(RowIds(log.journal), id) == if id in Ids(log.active) then 0 else 1
  {
    var rows := RowIds(log.journal);
    DistinctEnd(Ids(start.done), rows);
    DistinctCountsOnce(rows, id);
    assert id in Ids(start.done) + rows <==> id in rows;
  }

  // ---- Setting a record back to active ----

  /** Why the runs above never do it: at most one active operation is kept exactly when no other one is active. */
  lemma ReactivationKeepsOneEachIff(log: Log, d: nat, patch: Patch, message: string, now: int)
    requires Tidy(log) && Named(log) && OneEach(log.active) && d < |log.done| && patch.state == Some(Active)
    ensures var e := Update(log.done[d].id, patch, message, now, true);
            OneEach(Step(log, e).active)
            <==> ActiveOf(log.active, log.done[d].request.repo, log.done[d].request.workload) == |log.active|
  {
    var id, prior := log.done[d].id, log.done[d];
    assert Ids(log.done)[d] == id && Ids(log.done)[IndexOf(log.done, id)] == id;
    var r := Updated(prior, patch, message, now);
    var t := [r] + log.active;
    assert Step(log, Update(id, patch, message, now, true)).active == t;
    var k := ActiveOf(log.active, prior.request.repo, prior.request.workload);
    if k < |log.active| {
      assert SameWorkload(t[0], t[k + 1]);
    } else {
      forall i, j | 0 <= i < j < |t|
        ensures !SameWorkload(t[i], t[j])
      {
        assert t[j] == log.active[j - 1];
        if i == 0 { assert !IsActiveOf(log.active[j - 1], prior.request.repo, prior.request.workload); }
      }
    }
  }
}
