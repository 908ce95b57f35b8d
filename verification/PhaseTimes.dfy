/** How long each phase of an operation was open: what the records and the journal say against when it was open. */
module PhaseTimes {
  import opened Basics
  import opened Operations

  function Find(records: seq<Operation>, id: string): Option<Operation> {
    var k := IndexOf(records, id);
    if k < |records| then Some(records[k]) else None
  }

  function FindRow(rows: seq<Row>, id: string): Option<Row> {
    if rows == [] then None
    else if rows[|rows| - 1].id == id then Some(rows[|rows| - 1])
    else FindRow(rows[..|rows| - 1], id)
  }

  predicate Open(r: Operation, phase: Phase) { phase in r.phases && r.phases[phase].startedAt.Some? }

  /** The phase's time so far, at time `t`. */
  function Elapsed(r: Operation, phase: Phase, t: int): int {
    if phase !in r.phases then 0
    else r.phases[phase].durationMs + if Open(r, phase) then t - r.phases[phase].startedAt.value else 0
  }

  predicate IsOpen(log: Log, id: string, phase: Phase) {
    var r := Find(log.active, id); r.Some? && Open(r.value, phase)
  }

  /** What the log says a phase took: the running time of an active record, or its journal row. */
  function Reading(log: Log, id: string, phase: Phase, t: int): int {
    var r, row := Find(log.active, id), FindRow(log.journal, id);
    if r.Some? then Elapsed(r.value, phase, t)
    else if row.Some? && phase in row.value.phasesMs then row.value.phasesMs[phase]
    else 0
  }

  predicate Bounded(r: Operation, t: int) {
    && r.createdAt <= t
    && forall p <- r.phases ::
         && 0 <= r.phases[p].durationMs
         && (Open(r, p) ==> r.phases[p].startedAt.value <= t)
         && Elapsed(r, p, t) <= t - r.createdAt
  }

  predicate RowBounded(row: Row) { forall p <- row.phasesMs :: 0 <= row.phasesMs[p] <= row.totalMs }

  predicate Timed(log: Log, t: int) {
    (forall r <- log.active :: Bounded(r, t)) && (forall row <- log.journal :: RowBounded(row))
  }

  lemma FindIs(records: seq<Operation>, r: Operation)
    requires Distinct(Ids(records)) && r in records
    ensures Find(records, r.id) == Some(r)
  {
    var k :| 0 <= k < |records| && records[k] == r;
    var j := IndexOf(records, r.id);
    assert Ids(records)[k] == r.id && Ids(records)[j] == r.id;
  }

  lemma FindIff(records: seq<Operation>, id: string)
    ensures Find(records, id).Some? <==> id in Ids(records)
  {
    var j := IndexOf(records, id);
    assert j < |records| ==> Ids(records)[j] == id;
  }

  lemma FindReplaced(records: seq<Operation>, k: nat, r: Operation, id: string)
    requires k < |records| && records[k].id == r.id && Distinct(Ids(records))
    ensures Find(records[k := r], id) == if id == r.id then Some(r) else Find(records, id)
  {
    ReplacedIds(records, k, r);
    FindIff(records, id);
    FindIff(records[k := r], id);
    assert records[k := r][k] == r;
    if id == r.id {
      FindIs(records[k := r], r);
    } else if id in Ids(records) {
      var q := Find(records, id).value;
      var j := IndexOf(records, id);
      assert records[k := r][j] == q;
      FindIs(records[k := r], q);
    }
  }

  lemma ReplacedIds(records: seq<Operation>, k: nat, r: Operation)
    requires k < |records| && records[k].id == r.id
    ensures Ids(records[k := r]) == Ids(records)
  {
  }

  lemma FindWithout(records: seq<Operation>, k: nat, id: string)
    requires k < |records| && Distinct(Ids(records)) && OneEach(records)
    ensures Find(Without(records, k), id) == if id == records[k].id then None else Find(records, id)
  {
    var rest := Without(records, k);
    WithoutKeeps(records, k);
    FindIff(records, id);
    FindIff(rest, id);
    if id in Ids(rest) {
      var q := Find(rest, id).value;
      FindIs(records, q);
    }
  }

  lemma {:induction false} FindAppended(records: seq<Operation>, r: Operation, id: string)
    ensures Find(records + [r], id)
         == if Find(records, id).Some? then Find(records, id) else if r.id == id then Some(r) else None
  {
    var i, j := IndexOf(records, id), IndexOf(records + [r], id);
    assert (records + [r])[|records|] == r;
    assert forall k :: 0 <= k < |records| ==> (records + [r])[k] == records[k];
    assert i < |records| ==> j == i;
  }

  lemma {:induction false} FindRowIff(rows: seq<Row>, id: string)
    ensures FindRow(rows, id).Some? <==> id in RowIds(rows)
    ensures FindRow(rows, id).Some? ==> FindRow(rows, id).value in rows && FindRow(rows, id).value.id == id
  {
    if rows != [] {
      var before, last := rows[..|rows| - 1], rows[|rows| - 1];
      FindRowIff(before, id);
      assert rows == before + [last] && RowIds(rows) == RowIds(before) + [last.id];
    }
  }

  /** An event on one active record, read for any id. */
  lemma ReplacedReading(log: Log, a: nat, r: Operation, id: string, phase: Phase, t: int)
    requires a < |log.active| && log.active[a].id == r.id && Distinct(Ids(log.active))
    requires Elapsed(r, phase, t) == Elapsed(log.active[a], phase, t)
    ensures Reading(log.(active := log.active[a := r]), id, phase, t) == Reading(log, id, phase, t)
  {
    FindReplaced(log.active, a, r, id);
    FindIs(log.active, log.active[a]);
  }

  lemma ClosedElapsed(r: Operation, phase: Phase, now: int)
    requires Bounded(r, now)
    ensures phase in r.phases ==> AllClosed(r.phases, now)[phase].durationMs == Elapsed(r, phase, now)
  {
  }

  lemma FinishedReading(log: Log, a: nat, r: Operation, done: seq<Operation>, id: string, phase: Phase, t: int)
    requires a < |log.active| && log.active[a].id == r.id && Distinct(Ids(log.active)) && OneEach(log.active)
    requires Bounded(log.active[a], t) && r.phases == AllClosed(log.active[a].phases, t)
    ensures Reading(Log(done, Without(log.active, a), log.journal + [RowOf(r)]), id, phase, t) == Reading(log, id, phase, t)
  {
    FindWithout(log.active, a, id);
    FindIs(log.active, log.active[a]);
    ClosedElapsed(log.active[a], phase, t);
    assert (log.journal + [RowOf(r)])[..|log.journal|] == log.journal;
  }

  lemma MarkedElapsed(r: Operation, phase: Phase, start: bool, now: int, p: Phase)
    requires Bounded(r, now)
    ensures Elapsed(Marked(r, phase, start, now), p, now) == Elapsed(r, p, now)
    ensures Open(Marked(r, phase, start, now), p) <==> if p == phase then start else Open(r, p)
  {
  }

  lemma BoundedLater(r: Operation, t: int, u: int)
    requires Bounded(r, t) && t <= u
    ensures Bounded(r, u)
  {
  }

  lemma CreateKeepsReadings(start: Log, log: Log, known: set<string>, e: Event, id: string, phase: Phase)
    requires Inv(start, log, known) && e.Create? && Allowed(log, known, e)
    ensures Reading(Step(log, e), id, phase, e.now) == Reading(log, id, phase, e.now)
  {
    FindAppended(log.active, New(e.id, e.request, e.now), id);
    FindIff(log.active, id);
    FindRowIff(log.journal, id);
    assert RowIds(log.journal) == (Ids(start.done) + RowIds(log.journal))[|start.done|..];
    assert id == e.id ==> id !in RowIds(log.journal) && id !in Ids(log.active);
  }

  lemma UpdateKeepsReadings(log: Log, i: string, patch: Patch, message: string, now: int, journalled: bool,
                            id: string, phase: Phase)
    requires Tidy(log) && Timed(log, now) && Distinct(Ids(log.active)) && OneEach(log.active)
    requires patch.state == Some(Active) ==> IndexOf(log.done, i) == |log.done|
    ensures Reading(Step(log, Update(i, patch, message, now, journalled)), id, phase, now) == Reading(log, id, phase, now)
  {
    var d, a := IndexOf(log.done, i), IndexOf(log.active, i);
    if d == |log.done| && a < |log.active| {
      var r := Updated(log.active[a], patch, message, now);
      if r.state.Active? {
        ReplacedReading(log, a, r, id, phase, now);
      } else if journalled {
        FinishedReading(log, a, r, LastN(log.done + [r], KEPT), id, phase, now);
      }
    }
  }

  lemma MarkKeepsReadings(log: Log, i: string, p: Phase, begin: bool, now: int, id: string, phase: Phase)
    requires Timed(log, now) && Distinct(Ids(log.active))
    ensures Reading(Step(log, Mark(i, p, begin, now)), id, phase, now) == Reading(log, id, phase, now)
  {
    var a := IndexOf(log.active, i);
    if a < |log.active| {
      MarkedElapsed(log.active[a], p, begin, now, phase);
      ReplacedReading(log, a, Marked(log.active[a], p, begin, now), id, phase, now);
    }
  }

  /** At the time of the event, the event itself changes no reading. */
  lemma EventKeepsReadings(start: Log, log: Log, known: set<string>, e: Event, id: string, phase: Phase)
    requires Inv(start, log, known) && Allowed(log, known, e) && Timed(log, e.now)
    ensures Reading(Step(log, e), id, phase, e.now) == Reading(log, id, phase, e.now)
  {
    match e
    case Create(_, _, _, _) => CreateKeepsReadings(start, log, known, e, id, phase);
    case Update(i, patch, message, now, journalled) =>
      UpdateKeepsReadings(log, i, patch, message, now, journalled, id, phase);
    case Mark(i, p, begin, now) => MarkKeepsReadings(log, i, p, begin, now, id, phase);
  }

  lemma TimedStep(log: Log, e: Event)
    requires Tidy(log) && Timed(log, e.now)
    requires e.Update? ==> IndexOf(log.done, e.id) == |log.done| || e.patch.state != Some(Active)
    ensures Timed(Step(log, e), e.now)
  {
    match e
    case Create(_, _, _, _) =>
    case Update(i, patch, message, now, journalled) => TimedUpdate(log, i, patch, message, now, journalled);
    case Mark(i, p, begin, now) =>
      var a := IndexOf(log.active, i);
      if a < |log.active| {
        MarkedBounded(log.active[a], p, begin, now);
      }
  }

  lemma TimedUpdate(log: Log, i: string, patch: Patch, message: string, now: int, journalled: bool)
    requires Tidy(log) && Timed(log, now)
    requires IndexOf(log.done, i) == |log.done| || patch.state != Some(Active)
    ensures Timed(Step(log, Update(i, patch, message, now, journalled)), now)
  {
    var d, a := IndexOf(log.done, i), IndexOf(log.active, i);
    if d < |log.done| {
      assert !log.done[d].state.Active?;
    } else if a < |log.active| {
      var q := log.active[a];
      var r := Updated(q, patch, message, now);
      assert Bounded(q, now);
      if r.state.Active? {
        assert Bounded(r, now);
      } else {
        WithoutIsPart(log.active, a);
        FinishedRowBounded(q, r, now);
      }
    }
  }

  lemma WithoutIsPart(records: seq<Operation>, k: nat)
    requires k < |records|
    ensures forall r <- Without(records, k) :: r in records
  {
  }

  lemma FinishedRowBounded(q: Operation, r: Operation, now: int)
    requires Bounded(q, now) && r.phases == AllClosed(q.phases, now) && r.createdAt == q.createdAt && r.updatedAt == now
    ensures RowBounded(RowOf(r))
  {
    forall p <- r.phases
      ensures 0 <= r.phases[p].durationMs <= now - q.createdAt
    {
      ClosedElapsed(q, p, now);
    }
  }

  lemma MarkedBounded(r: Operation, phase: Phase, start: bool, now: int)
    requires Bounded(r, now)
    ensures Bounded(Marked(r, phase, start, now), now)
  {
    var q := Marked(r, phase, start, now);
    forall p <- q.phases
      ensures 0 <= q.phases[p].durationMs && (Open(q, p) ==> q.phases[p].startedAt.value <= now)
      ensures Elapsed(q, p, now) <= now - r.createdAt
    {
      MarkedElapsed(r, phase, start, now, p);
    }
  }

  // ---- Over a run ----

  /** The time of the last event, or of the start. */
  function Clock(events: seq<Event>, t0: int): int {
    if events == [] then t0 else events[|events| - 1].now
  }

  ghost predicate ClockRuns(events: seq<Event>, t0: int) {
    forall n: nat :: n < |events| ==> OnTime(events, t0, n)
  }

  predicate OnTime(events: seq<Event>, t0: int, n: nat)
    requires n < |events|
  {
    Clock(events[..n], t0) <= events[n].now
  }

  /** The time between events during which the phase was open. */
  function Spent(start: Log, events: seq<Event>, t0: int, id: string, phase: Phase): int
    decreases |events|
  {
    if events == [] then 0
    else
      var before := events[..|events| - 1];
      Spent(start, before, t0, id, phase)
      + if IsOpen(Run(start, before), id, phase) then Clock(events, t0) - Clock(before, t0) else 0
  }

  lemma TimePasses(log: Log, id: string, phase: Phase, t: int, u: int)
    ensures Reading(log, id, phase, u) == Reading(log, id, phase, t) + if IsOpen(log, id, phase) then u - t else 0
  {
  }

  /** At any time a phase's time is what was recorded at the start and the time it has been open since. */
  lemma {:induction false} ReadingIsSpent(start: Log, events: seq<Event>, t0: int, id: string, phase: Phase)
    requires Initial(start) && AllAllowed(start, events) && ClockRuns(events, t0) && Timed(start, t0)
    ensures Timed(Run(start, events), Clock(events, t0))
    ensures Reading(Run(start, events), id, phase, Clock(events, t0))
         == Reading(start, id, phase, t0) + Spent(start, events, t0, id, phase)
    decreases |events|
  {
    if events != [] {
      var n := |events| - 1;
      var before, e := events[..n], events[n];
      AllowedBefore(start, events);
      ClockBefore(events, t0);
      ReadingIsSpent(start, before, t0, id, phase);
      RunKeepsInv(start, before);
      var log := Run(start, before);
      forall r <- log.active
        ensures Bounded(r, e.now)
      {
        BoundedLater(r, Clock(before, t0), e.now);
      }
      TimePasses(log, id, phase, Clock(before, t0), e.now);
      EventKeepsReadings(start, log, InUse(start, before), e, id, phase);
      TimedStep(log, e);
    }
  }

  lemma ClockBefore(events: seq<Event>, t0: int)
    requires events != [] && ClockRuns(events, t0)
    ensures ClockRuns(events[..|events| - 1], t0)
    ensures Clock(events[..|events| - 1], t0) <= events[|events| - 1].now
  {
    var before := events[..|events| - 1];
    assert OnTime(events, t0, |events| - 1);
    forall n: nat | n < |before|
      ensures OnTime(before, t0, n)
    {
      assert before[..n] == events[..n] && OnTime(events, t0, n);
    }
  }

  /**
   * A journal row gives each phase exactly the time it was open, never more
   * than the operation's total; for an operation loaded at the start, the time
   * recorded then included.
   */
  lemma JournalledTimesAreOpenTimes(start: Log, events: seq<Event>, t0: int, row: Row, phase: Phase)
    requires Initial(start) && AllAllowed(start, events) && ClockRuns(events, t0) && Timed(start, t0)
    requires row in Run(start, events).journal
    ensures var open := Reading(start, row.id, phase, t0) + Spent(start, events, t0, row.id, phase);
            if phase in row.phasesMs then row.phasesMs[phase] == open && 0 <= open <= row.totalMs else open == 0
    ensures row.id !in Ids(start.active) ==> Reading(start, row.id, phase, t0) == 0
  {
    var log := Run(start, events);
    RunKeepsInv(start, events);
    RowIsFound(start, log, InUse(start, events), row);
    ReadingIsSpent(start, events, t0, row.id, phase);
    FindIff(start.active, row.id);
  }

  lemma RowIsFound(start: Log, log: Log, known: set<string>, row: Row)
    requires Inv(start, log, known) && row in log.journal
    ensures row.id !in Ids(start.done) && Find(log.active, row.id) == None && FindRow(log.journal, row.id) == Some(row)
  {
    var ids, rows := Ids(start.done), RowIds(log.journal);
    var finished := ids + rows;
    var k :| 0 <= k < |log.journal| && log.journal[k] == row;
    assert finished[|ids| + k] == row.id;
    forall j | 0 <= j < |ids|
      ensures ids[j] != row.id
    {
      assert finished[j] == ids[j];
    }
    FindIff(log.active, row.id);
    FindRowIff(log.journal, row.id);
    assert rows[k] == row.id;
    var found := FindRow(log.journal, row.id).value;
    var j :| 0 <= j < |log.journal| && log.journal[j] == found;
    assert finished[|ids| + j] == row.id;
  }

  /** When a phase is open: from a start mark on an active operation to its end mark or the operation's finish. */
  lemma OpensAndCloses(start: Log, log: Log, known: set<string>, e: Event, id: string, phase: Phase)
    requires Inv(start, log, known) && Allowed(log, known, e) && Timed(log, e.now)
    ensures IsOpen(Step(log, e), id, phase)
       <==> match e
            case Mark(i, p, begin, _) =>
              if i == id && p == phase && id in Ids(log.active) then begin else IsOpen(log, id, phase)
            case Update(i, patch, _, _, journalled) =>
              IsOpen(log, id, phase) && !(i == id && journalled && patch.state.Some? && patch.state.value != Active)
            case Create(_, _, _, _) => IsOpen(log, id, phase)
  {
    match e
    case Create(i, request, now, _) =>
      FindAppended(log.active, New(i, request, now), id);
      FindIff(log.active, id);
    case Update(i, patch, message, now, journalled) =>
      UpdateOpens(start, log, known, i, patch, message, now, journalled, id, phase);
    case Mark(i, p, begin, now) =>
      FindIff(log.active, id);
      FindIff(log.active, i);
      var d, a := IndexOf(log.done, i), IndexOf(log.active, i);
      if d < |log.done| { DoneIsNotActive(start, log, known, d); }
      if d == |log.done| && a < |log.active| {
        var r := Marked(log.active[a], p, begin, now);
        MarkedElapsed(log.active[a], p, begin, now, phase);
        FindReplaced(log.active, a, r, id);
        FindIs(log.active, log.active[a]);
      }
  }

  lemma DoneIsNotActive(start: Log, log: Log, known: set<string>, d: nat)
    requires Inv(start, log, known) && d < |log.done|
    ensures log.done[d].id !in Ids(log.active)
  {
    var finished := Ids(start.done) + RowIds(log.journal);
    assert Ids(log.done)[d] == log.done[d].id && log.done[d].id in LastN(finished, KEPT);
  }

  lemma UpdateOpens(start: Log, log: Log, known: set<string>, i: string, patch: Patch, message: string, now: int,
                    journalled: bool, id: string, phase: Phase)
    requires Inv(start, log, known) && Allowed(log, known, Update(i, patch, message, now, journalled))
    ensures IsOpen(Step(log, Update(i, patch, message, now, journalled)), id, phase)
       <==> IsOpen(log, id, phase) && !(i == id && journalled && patch.state.Some? && patch.state.value != Active)
  {
    var d, a := IndexOf(log.done, i), IndexOf(log.active, i);
    FindIff(log.active, id);
    FindIff(log.active, i);
    if d < |log.done| {
      DoneIsNotActive(start, log, known, d);
    } else if a < |log.active| {
      var r := Updated(log.active[a], patch, message, now);
      FindIs(log.active, log.active[a]);
      if r.state.Active? {
        FindReplaced(log.active, a, r, id);
      } else {
        FindWithout(log.active, a, id);
        assert log.active[a].state.Active?;
      }
    }
  }
}
