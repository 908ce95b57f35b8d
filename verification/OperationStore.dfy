/**
 * The class that keeps the operation log: one list of records, edited in place
 * and flushed to disk, and the journal. Flushing keeps the list tidy, and on a
 * tidy list every call is one step of the log.
 */
module OperationStore {
  import opened Basics
  import opened Operations

  // ---- What a call does to the list ----

  datatype Lists = Lists(records: seq<Operation>, journal: seq<Row>)

  function Dropped(records: seq<Operation>): seq<Operation> {
    if records == [] then [] else records[..|records| - 1]
  }

  function ListStep(l: Lists, e: Event): Lists {
    match e
    case Create(id, request, now, written) =>
      if ActiveOf(l.records, request.repo, request.workload) < |l.records| then l
      else
        var flushed := Flushed(l.records + [New(id, request, now)]);
        l.(records := if written then flushed else Dropped(flushed))
    case Update(id, patch, message, now, journalled) =>
      var k := IndexOf(l.records, id);
      if k == |l.records| || (Finishes(l.records[k], patch) && !journalled) then l
      else
        var r := Updated(l.records[k], patch, message, now);
        Lists(Flushed(l.records[k := r]), if Finishes(l.records[k], patch) then l.journal + [RowOf(r)] else l.journal)
    case Mark(id, phase, start, now) =>
      var k := IndexOf(l.records, id);
      if k == |l.records| || !l.records[k].state.Active? || start == IsMarked(l.records[k], phase) then l
      else l.(records := Flushed(l.records[k := Marked(l.records[k], phase, start, now)]))
  }

  predicate IsMarked(r: Operation, phase: Phase) { phase in r.phases && r.phases[phase].startedAt.Some? }

  const PHASES := [Build, ImagePull, Helm, Rollout, Ready]

  class OperationLog {
    var records: seq<Operation>
    /** The timings journal, and the history file. */
    var journal: seq<Row>
    var file: seq<Operation>

    /** Starts from the history file, when there is one. */
    constructor (history: Option<seq<Operation>>)
      ensures records == file == (if history.Some? then history.value else []) && journal == []
    {
      records := if history.Some? then history.value else [];
      file := if history.Some? then history.value else [];
      journal := [];
    }

    /** `flush`; `written` tells whether the file could be replaced. */
    method Flush(written: bool) returns (ok: bool)
      modifies this`records, this`file
      ensures ok == written && records == Flushed(old(records)) && file == if written then records else old(file)
    {
      records := Flushed(records);
      if written { file := records; }
      ok := written;
    }

    /** The active operation of the workload is joined, or refused when it is a different one; else a new one begins. */
    method Create(id: string, request: Request, now: int, written: bool) returns (r: Result<Operation>)
      modifies this`records, this`file
      ensures Lists(records, journal) == ListStep(Lists(old(records), journal), Event.Create(id, request, now, written))
      ensures var k := ActiveOf(old(records), request.repo, request.workload);
              if k < |old(records)| then
                var prior := old(records)[k];
                file == old(file)
                && (if prior.request.action == request.action && prior.request.namespace == request.namespace
                    then r == Ok(prior) else r.Err?)
              else if written then r == Ok(New(id, request, now)) && file == records
              else r.Err? && file == old(file)
    {
      var k := ActiveOf(records, request.repo, request.workload);
      if k < |records| {
        if records[k].request.action != request.action || records[k].request.namespace != request.namespace {
          return Err("Workload already has active operation " + records[k].id);
        }
        return Ok(records[k]);
      }
      var created := New(id, request, now);
      records := records + [created];
      var ok := Flush(written);
      if !ok {
        records := Dropped(records);
        return Err("write failed");
      }
      r := Ok(created);
    }

    /** Ends every phase in turn. */
    static method CloseEach(phases: map<Phase, Timing>, now: int) returns (closed: map<Phase, Timing>)
      ensures closed == AllClosed(phases, now)
    {
      closed := phases;
      var k := 0;
      while k < |PHASES|
        invariant 0 <= k <= |PHASES| && closed.Keys == phases.Keys
        invariant forall p <- phases :: closed[p] == if p in PHASES[..k] then Closed(phases[p], now) else phases[p]
      {
        var p := PHASES[k];
        assert PHASES[..k + 1] == PHASES[..k] + [p];
        if p in closed {
          closed := closed[p := Closed(closed[p], now)];
        }
        k := k + 1;
      }
      assert PHASES[..k] == PHASES;
      EveryPhaseIsListed();
    }

    /** An update; one that finishes the operation closes its phases and writes its journal row, or nothing happens. */
    method Update(id: string, patch: Patch, message: string, now: int, journalled: bool, written: bool)
      returns (r: Result<Operation>)
      modifies this
      ensures Lists(records, journal)
           == ListStep(Lists(old(records), old(journal)), Event.Update(id, patch, message, now, journalled))
      ensures var k := IndexOf(old(records), id);
              if k == |old(records)| || (Finishes(old(records)[k], patch) && !journalled) then
                r.Err? && file == old(file)
              else
                && file == (if written then records else old(file))
                && r == if written then Ok(Updated(old(records)[k], patch, message, now)) else Err("write failed")
    {
      var k := IndexOf(records, id);
      if k == |records| { return Err("Unknown operation"); }
      var previous := records[k];
      var record := Patched(previous, patch, message, now);
      records := records[k := record];
      if Finishes(previous, patch) {
        var phases := CloseEach(record.phases, now);
        record := record.(phases := phases);
        records := records[k := record];
        if !journalled {
          records := records[k := previous];
          assert records == old(records);
          return Err("journal not written");
        }
        journal := journal + [RowOf(record)];
      }
      assert records == old(records)[k := record];
      var ok := Flush(written);
      r := if ok then Ok(record) else Err("write failed");
    }

    /** `phase`: starts or ends a phase of an active operation; anything else changes nothing. */
    method Mark(id: string, phase: Phase, start: bool, now: int, written: bool)
      modifies this`records, this`file
      ensures Lists(records, journal) == ListStep(Lists(old(records), journal), Event.Mark(id, phase, start, now))
      ensures var k := IndexOf(old(records), id);
              var changes := k < |old(records)| && old(records)[k].state.Active? && start != IsMarked(old(records)[k], phase);
              file == if changes && written then records else old(file)
    {
      var k := IndexOf(records, id);
      if k == |records| || !records[k].state.Active? { return; }
      if start == IsMarked(records[k], phase) { return; }
      records := records[k := Marked(records[k], phase, start, now)];
      var _ := Flush(written);
    }
  }

  lemma EveryPhaseIsListed()
    ensures forall p: Phase :: p in PHASES
  {
    forall p: Phase
      ensures p in PHASES
    {
      match p
      case Build => assert PHASES[0] == p;
      case ImagePull => assert PHASES[1] == p;
      case Helm => assert PHASES[2] == p;
      case Rollout => assert PHASES[3] == p;
      case Ready => assert PHASES[4] == p;
    }
  }

  // ---- A tidy list is a log ----

  /** The list is as a flush leaves it, so flushing it again changes nothing. */
  predicate IsTidy(records: seq<Operation>) { Flushed(records) == records }

  /** The log that a list of records and a journal stand for. */
  function LogOf(l: Lists): Log { Log(Select(l.records, false), Select(l.records, true), l.journal) }

  lemma {:induction false} SelectAppend(a: seq<Operation>, b: seq<Operation>, active: bool)
    ensures Select(a + b, active) == Select(a, active) + Select(b, active)
    decreases |b|
  {
    if b == [] {
      assert a + b == a;
    } else {
      assert (a + b)[..|a + b| - 1] == a + b[..|b| - 1];
      SelectAppend(a, b[..|b| - 1], active);
    }
  }

  lemma {:induction false} SelectUniform(s: seq<Operation>, active: bool)
    requires Uniform(s, active)
    ensures Select(s, active) == s && Select(s, !active) == []
    decreases |s|
  {
    if s != [] { SelectUniform(s[..|s| - 1], active); }
  }

  lemma {:induction false} SelectIsUniform(s: seq<Operation>, active: bool)
    ensures Uniform(Select(s, active), active)
    decreases |s|
  {
    if s != [] { SelectIsUniform(s[..|s| - 1], active); }
  }

  /** The two halves of a list put together from finished and active records. */
  lemma SelectHalves(done: seq<Operation>, active: seq<Operation>)
    requires Uniform(done, false) && Uniform(active, true)
    ensures Select(done + active, false) == done && Select(done + active, true) == active
  {
    SelectAppend(done, active, false);
    SelectAppend(done, active, true);
    SelectUniform(done, false);
    SelectUniform(active, true);
  }

  lemma UniformTail(s: seq<Operation>, n: nat, active: bool)
    requires Uniform(s, active)
    ensures Uniform(LastN(s, n), active)
  {
  }

  /** Whatever was flushed is tidy, and stands for the finished records cut to the last hundred. */
  lemma FlushedLog(records: seq<Operation>, journal: seq<Row>)
    ensures IsTidy(Flushed(records))
    ensures LogOf(Lists(Flushed(records), journal))
         == Log(LastN(Select(records, false), KEPT), Select(records, true), journal)
  {
    SelectIsUniform(records, false);
    SelectIsUniform(records, true);
    UniformTail(Select(records, false), KEPT, false);
    SelectHalves(LastN(Select(records, false), KEPT), Select(records, true));
  }

  lemma TidyMeans(records: seq<Operation>)
    requires IsTidy(records)
    ensures var done, active := Select(records, false), Select(records, true);
            records == done + active && Uniform(done, false) && Uniform(active, true) && |done| <= KEPT
  {
    var done, active := Select(records, false), Select(records, true);
    SelectIsUniform(records, false);
    SelectIsUniform(records, true);
    UniformTail(done, KEPT, false);
    SelectHalves(LastN(done, KEPT), active);
  }

  lemma {:induction false} ActiveOfHalves(done: seq<Operation>, active: seq<Operation>, repo: string, workload: string)
    requires Uniform(done, false)
    ensures ActiveOf(done + active, repo, workload) == |done| + ActiveOf(active, repo, workload)
  {
    if done == [] {
      assert done + active == active;
    } else {
      assert (done + active)[1..] == done[1..] + active;
      ActiveOfHalves(done[1..], active, repo, workload);
    }
  }

  lemma {:induction false} IndexOfSum(a: seq<Operation>, b: seq<Operation>, id: string)
    ensures IndexOf(a + b, id) == if IndexOf(a, id) < |a| then IndexOf(a, id) else |a| + IndexOf(b, id)
  {
    if a == [] {
      assert a + b == b;
    } else {
      assert (a + b)[1..] == a[1..] + b;
      IndexOfSum(a[1..], b, id);
    }
  }

  /** A record among others that are all active, or all not: taken out of the list, or left in its place. */
  lemma SelectReplaced(s: seq<Operation>, k: nat, r: Operation, active: bool)
    requires k < |s| && Uniform(s, active)
    ensures r.state.Active? == active ==> Select(s[k := r], active) == s[k := r] && Select(s[k := r], !active) == []
    ensures r.state.Active? != active ==> Select(s[k := r], active) == Without(s, k) && Select(s[k := r], !active) == [r]
  {
    if r.state.Active? == active {
      SelectUniform(s[k := r], active);
    } else {
      var a, b := s[..k], s[k + 1..];
      assert s[k := r] == a + ([r] + b);
      SelectAround(a, r, b, active);
    }
  }

  lemma SelectAround(a: seq<Operation>, r: Operation, b: seq<Operation>, active: bool)
    requires Uniform(a, active) && Uniform(b, active) && r.state.Active? != active
    ensures Select(a + ([r] + b), active) == a + b && Select(a + ([r] + b), !active) == [r]
  {
    SelectUniform(a, active);
    SelectUniform(b, active);
    SelectUniform([r], !active);
    SelectAppend([r], b, active);
    SelectAppend([r], b, !active);
    SelectAppend(a, [r] + b, active);
    SelectAppend(a, [r] + b, !active);
    assert [] + b == b && [r] + [] == [r] && [] + [r] == [r];
  }

  lemma ReplacedDone(done: seq<Operation>, active: seq<Operation>, d: nat, r: Operation, journal: seq<Row>)
    requires Uniform(done, false) && Uniform(active, true) && |done| <= KEPT && d < |done|
    ensures LogOf(Lists(Flushed((done + active)[d := r]), journal))
         == if r.state.Active? then Log(Without(done, d), [r] + active, journal) else Log(done[d := r], active, journal)
  {
    var records := (done + active)[d := r];
    assert records == done[d := r] + active;
    SelectReplaced(done, d, r, false);
    SelectUniform(active, true);
    SelectAppend(done[d := r], active, false);
    SelectAppend(done[d := r], active, true);
    Units(Select(done[d := r], false), active);
    FlushedLog(records, journal);
  }

  lemma Units(a: seq<Operation>, b: seq<Operation>)
    ensures a + [] == a && [] + b == b
  {
  }

  lemma ReplacedActive(done: seq<Operation>, active: seq<Operation>, a: nat, r: Operation, journal: seq<Row>)
    requires Uniform(done, false) && Uniform(active, true) && |done| <= KEPT && a < |active|
    ensures LogOf(Lists(Flushed((done + active)[|done| + a := r]), journal))
         == if r.state.Active? then Log(done, active[a := r], journal)
            else Log(LastN(done + [r], KEPT), Without(active, a), journal)
  {
    var records := (done + active)[|done| + a := r];
    assert records == done + active[a := r];
    SelectReplaced(active, a, r, true);
    SelectUniform(done, false);
    SelectAppend(done, active[a := r], false);
    SelectAppend(done, active[a := r], true);
    Units(done, Select(active[a := r], true));
    FlushedLog(records, journal);
  }

  // ---- A call is a step ----

  lemma CreateIsStep(done: seq<Operation>, active: seq<Operation>, journal: seq<Row>, id: string, request: Request,
                     now: int, written: bool)
    requires Uniform(done, false) && Uniform(active, true) && |done| <= KEPT
    ensures var e, l := Event.Create(id, request, now, written), Lists(done + active, journal);
            LogOf(ListStep(l, e)) == Step(Log(done, active, journal), e)
  {
    ActiveOfHalves(done, active, request.repo, request.workload);
    SelectHalves(done, active);
    Appended(done, active, New(id, request, now));
  }

  lemma Appended(done: seq<Operation>, active: seq<Operation>, r: Operation)
    requires Uniform(done, false) && Uniform(active, true) && |done| <= KEPT && r.state.Active?
    ensures Flushed(done + active + [r]) == done + (active + [r])
    ensures Dropped(done + (active + [r])) == done + active
    ensures Select(done + (active + [r]), false) == done && Select(done + (active + [r]), true) == active + [r]
  {
    SelectHalves(done, active + [r]);
    assert done + active + [r] == done + (active + [r]);
  }

  /** Where a record is found in the list. */
  lemma Located(done: seq<Operation>, active: seq<Operation>, id: string)
    requires Uniform(done, false) && Uniform(active, true)
    ensures var d, a, k := IndexOf(done, id), IndexOf(active, id), IndexOf(done + active, id);
            && (d < |done| ==> k == d && (done + active)[k] == done[d] && !done[d].state.Active?)
            && (d == |done| && a < |active| ==>
                  k == |done| + a && (done + active)[k] == active[a] && active[a].state.Active?)
            && (d == |done| && a == |active| ==> k == |done + active|)
  {
    IndexOfSum(done, active, id);
  }

  lemma UpdateIsStep(done: seq<Operation>, active: seq<Operation>, journal: seq<Row>, id: string, patch: Patch,
                     message: string, now: int, journalled: bool)
    requires Uniform(done, false) && Uniform(active, true) && |done| <= KEPT
    ensures var e, l := Event.Update(id, patch, message, now, journalled), Lists(done + active, journal);
            LogOf(ListStep(l, e)) == Step(Log(done, active, journal), e)
  {
    Located(done, active, id);
    var d, a := IndexOf(done, id), IndexOf(active, id);
    if d < |done| {
      ReplacedDone(done, active, d, Updated(done[d], patch, message, now), journal);
    } else if a < |active| {
      UpdateActiveIsStep(done, active, journal, a, id, patch, message, now, journalled);
    } else {
      SelectHalves(done, active);
    }
  }

  lemma UpdateActiveIsStep(done: seq<Operation>, active: seq<Operation>, journal: seq<Row>, a: nat, id: string,
                           patch: Patch, message: string, now: int, journalled: bool)
    requires Uniform(done, false) && Uniform(active, true) && |done| <= KEPT
    requires IndexOf(done, id) == |done| && a == IndexOf(active, id) && a < |active|
    requires IndexOf(done + active, id) == |done| + a && active[a].state.Active?
    ensures var e, l := Event.Update(id, patch, message, now, journalled), Lists(done + active, journal);
            LogOf(ListStep(l, e)) == Step(Log(done, active, journal), e)
  {
    assert (done + active)[|done| + a] == active[a];
    var r := Updated(active[a], patch, message, now);
    var l, e := Lists(done + active, journal), Event.Update(id, patch, message, now, journalled);
    var replaced := Flushed((done + active)[|done| + a := r]);
    assert Finishes(active[a], patch) <==> !r.state.Active?;
    if r.state.Active? {
      assert ListStep(l, e) == Lists(replaced, journal);
      ReplacedActive(done, active, a, r, journal);
    } else if journalled {
      assert ListStep(l, e) == Lists(replaced, journal + [RowOf(r)]);
      ReplacedActive(done, active, a, r, journal + [RowOf(r)]);
    } else {
      SelectHalves(done, active);
    }
  }

  lemma MarkIsStep(done: seq<Operation>, active: seq<Operation>, journal: seq<Row>, id: string, phase: Phase,
                   start: bool, now: int)
    requires Uniform(done, false) && Uniform(active, true) && |done| <= KEPT
    ensures var e, l := Event.Mark(id, phase, start, now), Lists(done + active, journal);
            LogOf(ListStep(l, e)) == Step(Log(done, active, journal), e)
  {
    Located(done, active, id);
    SelectHalves(done, active);
    var d, a := IndexOf(done, id), IndexOf(active, id);
    if d == |done| && a < |active| {
      MarkActiveIsStep(done, active, journal, a, id, phase, start, now);
    }
  }

  lemma MarkActiveIsStep(done: seq<Operation>, active: seq<Operation>, journal: seq<Row>, a: nat, id: string,
                         phase: Phase, start: bool, now: int)
    requires Uniform(done, false) && Uniform(active, true) && |done| <= KEPT
    requires IndexOf(done, id) == |done| && a == IndexOf(active, id) && a < |active|
    requires IndexOf(done + active, id) == |done| + a && active[a].state.Active?
    ensures var e, l := Event.Mark(id, phase, start, now), Lists(done + active, journal);
            LogOf(ListStep(l, e)) == Step(Log(done, active, journal), e)
  {
    assert (done + active)[|done| + a] == active[a];
    MarkInLog(done, active, journal, a, id, phase, start, now);
    MarkInList(Lists(done + active, journal), |done| + a, id, phase, start, now);
    if start == IsMarked(active[a], phase) {
      SelectHalves(done, active);
    } else {
      MarkedStays(active[a], phase, start, now);
      ReplacedActive(done, active, a, Marked(active[a], phase, start, now), journal);
    }
  }

  lemma MarkedStays(r: Operation, phase: Phase, start: bool, now: int)
    ensures Marked(r, phase, start, now).state == r.state
  {
  }

  lemma MarkInLog(done: seq<Operation>, active: seq<Operation>, journal: seq<Row>, a: nat, id: string,
                  phase: Phase, start: bool, now: int)
    requires IndexOf(done, id) == |done| && a == IndexOf(active, id) && a < |active|
    ensures Step(Log(done, active, journal), Event.Mark(id, phase, start, now))
         == if start == IsMarked(active[a], phase) then Log(done, active, journal)
            else Log(done, active[a := Marked(active[a], phase, start, now)], journal)
  {
    assert active[a := active[a]] == active;
  }

  lemma MarkInList(l: Lists, k: nat, id: string, phase: Phase, start: bool, now: int)
    requires k == IndexOf(l.records, id) && k < |l.records| && l.records[k].state.Active?
    ensures ListStep(l, Event.Mark(id, phase, start, now))
         == if start == IsMarked(l.records[k], phase) then l
            else Lists(Flushed(l.records[k := Marked(l.records[k], phase, start, now)]), l.journal)
  {
  }

  /** On a tidy list every call is one step of the log, and leaves the list tidy. */
  lemma ListStepIsStep(l: Lists, e: Event)
    requires IsTidy(l.records)
    ensures LogOf(ListStep(l, e)) == Step(LogOf(l), e)
    ensures IsTidy(ListStep(l, e).records)
  {
    TidyMeans(l.records);
    StaysTidy(l, e);
    var done, active := Select(l.records, false), Select(l.records, true);
    match e
    case Create(id, request, now, written) => CreateIsStep(done, active, l.journal, id, request, now, written);
    case Update(id, patch, message, now, journalled) =>
      UpdateIsStep(done, active, l.journal, id, patch, message, now, journalled);
    case Mark(id, phase, start, now) => MarkIsStep(done, active, l.journal, id, phase, start, now);
  }

  lemma StaysTidy(l: Lists, e: Event)
    requires IsTidy(l.records)
    ensures IsTidy(ListStep(l, e).records)
  {
    match e
    case Create(id, request, now, written) =>
      FlushedLog(l.records + [New(id, request, now)], l.journal);
      if ActiveOf(l.records, request.repo, request.workload) == |l.records| && !written {
        UnwrittenIsDropped(l.records, New(id, request, now));
      }
    case Update(id, patch, message, now, _) =>
      var k := IndexOf(l.records, id);
      if k < |l.records| { FlushedLog(l.records[k := Updated(l.records[k], patch, message, now)], l.journal); }
    case Mark(id, phase, start, now) =>
      var k := IndexOf(l.records, id);
      if k < |l.records| { FlushedLog(l.records[k := Marked(l.records[k], phase, start, now)], l.journal); }
  }

  /** A record whose first flush failed is taken off again, and nothing else with it. */
  lemma UnwrittenIsDropped(records: seq<Operation>, r: Operation)
    requires IsTidy(records) && r.state.Active?
    ensures Dropped(Flushed(records + [r])) == records
  {
    TidyMeans(records);
    var done, active := Select(records, false), Select(records, true);
    SelectHalves(done, active + [r]);
    assert records + [r] == done + (active + [r]);
  }
}
