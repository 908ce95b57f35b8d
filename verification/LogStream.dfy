/**
 * Process output to lines to a bounded buffer to resumable reads:
 * `LineSplitter`, `RingBuffer` and `LogHub`. Text arrives in arbitrary chunks;
 * a reader polls with the cursor its previous poll returned.
 *
 * The display clean-up of a line (`cleanLine`) is any function `clean`.
 */
module LogStream {
  import opened Basics
  import opened Lines

  function Cleaned(clean: string -> string, lines: seq<string>): (r: seq<string>)
    ensures |r| == |lines| && forall k :: 0 <= k < |r| ==> r[k] == clean(lines[k])
  {
    seq(|lines|, k requires 0 <= k < |lines| => clean(lines[k]))
  }

  // ---- The pipeline on values ----

  /** A hub that has been sent `lines` (already cleaned) and keeps the last `capacity` of them. */
  datatype Hub = Hub(capacity: nat, kept: seq<string>, seqNo: nat) {
    function Push(line: string): Hub {
      var longer := kept + [line];
      this.(kept := if |longer| > capacity then longer[1..] else longer, seqNo := seqNo + 1)
    }

    function PushAll(lines: seq<string>): Hub
      decreases |lines|
    {
      if lines == [] then this else Push(lines[0]).PushAll(lines[1..])
    }

    function Oldest(): int { seqNo - |kept| }

    function Since(cursor: int): Slice {
      var start := Max(cursor, Oldest());
      Slice(if start - Oldest() > |kept| then [] else kept[start - Oldest()..], seqNo, cursor < Oldest())
    }

    function Recent(tail: nat): seq<string> { kept[Max(0, |kept| - tail)..] }

    /** The hub is what pushing `lines` into an empty one gives. */
    ghost predicate Holds(lines: seq<string>) {
      seqNo == |lines| && kept == LastN(lines, capacity)
    }
  }

  datatype Slice = Slice(lines: seq<string>, nextSeq: nat, dropped: bool)

  lemma PushKeepsTheTail(h: Hub, lines: seq<string>, line: string)
    requires h.Holds(lines)
    ensures h.Push(line).Holds(lines + [line])
  {
    var longer, all := h.kept + [line], lines + [line];
    if |lines| >= h.capacity {
      assert longer[1..] == all[|all| - h.capacity..];
    }
  }

  lemma {:induction false} PushAllKeepsTheTail(h: Hub, lines: seq<string>, more: seq<string>)
    requires h.Holds(lines)
    ensures h.PushAll(more).Holds(lines + more) && h.PushAll(more).capacity == h.capacity
    decreases |more|
  {
    if more == [] {
      assert lines + more == lines;
    } else {
      PushKeepsTheTail(h, lines, more[0]);
      assert lines + [more[0]] + more[1..] == lines + more;
      PushAllKeepsTheTail(h.Push(more[0]), lines + [more[0]], more[1..]);
      assert h.PushAll(more) == h.Push(more[0]).PushAll(more[1..]);
    }
  }

  /** A poll returns the kept lines from its cursor on, and says exactly whether some line in between was lost. */
  lemma SinceIsExact(h: Hub, lines: seq<string>, cursor: nat)
    requires h.Holds(lines) && cursor <= |lines|
    ensures h.Since(cursor).nextSeq == |lines|
    ensures h.Since(cursor).dropped <==> |lines| - cursor > h.capacity
    ensures h.Since(cursor).lines == LastN(lines[cursor..], h.capacity)
  {
    var n := Max(0, |lines| - h.capacity);
    assert h.Oldest() == n;
    if cursor <= n {
      assert h.kept[0..] == h.kept == lines[n..] == lines[cursor..][n - cursor..];
    } else {
      assert h.kept[cursor - n..] == lines[cursor..];
    }
  }

  /** A cursor past the end is answered with nothing, and no loss is reported. */
  lemma FutureCursorIsSilent(h: Hub, lines: seq<string>, cursor: nat)
    requires h.Holds(lines) && cursor >= |lines|
    ensures h.Since(cursor) == Slice([], |lines|, false)
  {
  }

  lemma RecentIsTheTail(h: Hub, lines: seq<string>, tail: nat)
    requires h.Holds(lines)
    ensures h.Recent(tail) == LastN(lines, Min(tail, h.capacity))
  {
    var r, want := h.Recent(tail), LastN(lines, Min(tail, h.capacity));
    assert |r| == |want|;
    assert forall k :: 0 <= k < |r| ==> r[k] == want[k];
  }

  // ---- Runs: chunks, the end of the stream, polls ----

  datatype Act = Chunk(text: string) | Flush | Poll

  /**
   * `heard` has one entry per line number below the cursor: the line a poll
   * returned for it, or None when that poll skipped over it. A reader can tell:
   * the gap is `nextSeq - cursor - |lines|`.
   */
  datatype Reader = Reader(cursor: nat, heard: seq<Option<string>>, lossy: bool)

  datatype State = State(carry: string, hub: Hub, reader: Reader)

  function Initial(capacity: nat): State { State("", Hub(capacity, [], 0), Reader(0, [], false)) }

  function Step(clean: string -> string, s: State, act: Act): State {
    match act
    case Chunk(text) =>
      var all := s.carry + text;
      s.(carry := Partial(all), hub := s.hub.PushAll(Cleaned(clean, CompleteLines(all))))
    case Flush =>
      if s.carry == "" then s else s.(carry := "", hub := s.hub.Push(clean(s.carry)))
    case Poll =>
      var slice, r := s.hub.Since(s.reader.cursor), s.reader;
      s.(reader := Reader(slice.nextSeq,
                          r.heard + Padded(slice.lines, slice.nextSeq - r.cursor),
                          r.lossy || slice.dropped))
  }

  predicate Follows(clean: string -> string, s: State, act: Act, t: State) { t == Step(clean, s, act) }

  /** One entry per state and per act between two states. */
  ghost predicate Run(clean: string -> string, capacity: nat, states: seq<State>, acts: seq<Act>) {
    && |states| == |acts| + 1
    && states[0] == Initial(capacity)
    && forall k :: 0 <= k < |acts| ==> Follows(clean, states[k], acts[k], states[k + 1])
  }

  /** The text fed in, after one more act: a flush ends a pending partial line, as a newline would. */
  function TextAfter(text: string, act: Act): string {
    match act
    case Chunk(more) => text + more
    case Flush => if Partial(text) == "" then text else text + [NEWLINE]
    case Poll => text
  }

  /** The stream the acts feed in. */
  function StreamText(acts: seq<Act>): string
    decreases |acts|
  {
    if acts == [] then "" else TextAfter(StreamText(acts[..|acts| - 1]), acts[|acts| - 1])
  }

  /** What has reached the hub when `text` has been fed in. */
  ghost predicate Consumed(clean: string -> string, s: State, text: string) {
    s.carry == Partial(text) && s.hub.Holds(Cleaned(clean, CompleteLines(text)))
  }

  /** Every line number below the cursor was either returned as that very line or reported as a loss. */
  ghost predicate Heard(s: State, lines: seq<string>) {
    |s.reader.heard| == s.reader.cursor && Faithful(s.reader.heard, lines, s.reader.lossy)
  }

  lemma CleanedAppend(clean: string -> string, a: seq<string>, b: seq<string>)
    ensures Cleaned(clean, a + b) == Cleaned(clean, a) + Cleaned(clean, b)
  {
  }

  lemma CleanedNext(clean: string -> string, done: seq<string>, parts: seq<string>, k: nat)
    requires k < |parts|
    ensures done + Cleaned(clean, parts[..k]) + [clean(parts[k])] == done + Cleaned(clean, parts[..k + 1])
  {
    assert Cleaned(clean, parts[..k + 1]) == Cleaned(clean, parts[..k]) + [clean(parts[k])];
  }

  lemma CleanedPrefix(clean: string -> string, s: State, text: string, more: string)
    requires Heard(s, Cleaned(clean, CompleteLines(text)))
    ensures Heard(s, Cleaned(clean, CompleteLines(text + more)))
  {
    PartialContinues(text, more);
  }

  lemma ChunkStep(clean: string -> string, s: State, text: string, chunk: string)
    requires Consumed(clean, s, text)
    ensures Consumed(clean, Step(clean, s, Chunk(chunk)), text + chunk)
  {
    PartialContinues(text, chunk);
    var more := CompleteLines(s.carry + chunk);
    CleanedAppend(clean, CompleteLines(text), more);
    PushAllKeepsTheTail(s.hub, Cleaned(clean, CompleteLines(text)), Cleaned(clean, more));
  }

  lemma FlushStep(clean: string -> string, s: State, text: string)
    requires Consumed(clean, s, text) && Partial(text) != ""
    ensures Consumed(clean, Step(clean, s, Flush), text + [NEWLINE])
  {
    NewlineEndsThePartial(text);
    CleanedAppend(clean, CompleteLines(text), [Partial(text)]);
    assert Cleaned(clean, [Partial(text)]) == [clean(Partial(text))];
    PushKeepsTheTail(s.hub, Cleaned(clean, CompleteLines(text)), clean(Partial(text)));
  }

  lemma PollStep(clean: string -> string, s: State, lines: seq<string>)
    requires s.hub.Holds(lines) && Heard(s, lines)
    ensures Heard(Step(clean, s, Poll), lines)
    ensures Step(clean, s, Poll).reader.cursor == |lines|
  {
    var r, slice := s.reader, s.hub.Since(s.reader.cursor);
    SinceIsExact(s.hub, lines, r.cursor);
    PaddedTailIsFaithful(slice.lines, lines[r.cursor..]);
    FaithfulGrows(r.heard, lines, r.lossy, Padded(slice.lines, |lines| - r.cursor), slice.dropped);
  }

  /**
   * Whatever the chunking and wherever the polls fall: the hub has been sent
   * exactly the cleaned lines of the stream, in order, and every line below the
   * reader's cursor was either returned at its place or reported lost.
   */
  lemma {:induction false} StreamIsConserved(clean: string -> string, capacity: nat, states: seq<State>, acts: seq<Act>,
                                             k: nat)
    requires Run(clean, capacity, states, acts) && k < |states|
    ensures Conserved(clean, capacity, states[k], StreamText(acts[..k]))
  {
    if k == 0 {
      StartConserves(clean, capacity);
    } else {
      StreamIsConserved(clean, capacity, states, acts, k - 1);
      assert Follows(clean, states[k - 1], acts[k - 1], states[k]);
      assert acts[..k][..k - 1] == acts[..k - 1];
      ActConserves(clean, capacity, states[k - 1], StreamText(acts[..k - 1]), acts[k - 1]);
    }
  }

  /** The hub was sent the lines of `text`, and the reader was given or denied each line below its cursor. */
  ghost predicate Conserved(clean: string -> string, capacity: nat, s: State, text: string) {
    && s.hub.capacity == capacity && Consumed(clean, s, text)
    && Heard(s, Cleaned(clean, CompleteLines(text)))
  }

  lemma StartConserves(clean: string -> string, capacity: nat)
    ensures Conserved(clean, capacity, Initial(capacity), "")
  {
    assert Split("", NEWLINE) == [""];
  }

  lemma ActConserves(clean: string -> string, capacity: nat, s: State, text: string, act: Act)
    requires Conserved(clean, capacity, s, text)
    ensures Conserved(clean, capacity, Step(clean, s, act), TextAfter(text, act))
  {
    match act
    case Chunk(chunk) =>
      ChunkStep(clean, s, text, chunk);
      PushAllKeepsTheTail(s.hub, Cleaned(clean, CompleteLines(text)),
                          Cleaned(clean, CompleteLines(s.carry + chunk)));
      CleanedPrefix(clean, s, text, chunk);
    case Flush =>
      if s.carry != "" {
        FlushStep(clean, s, text);
        CleanedPrefix(clean, s, text, [NEWLINE]);
      }
    case Poll =>
      PollStep(clean, s, Cleaned(clean, CompleteLines(text)));
  }

  /**
   * A reader that has just polled and was never told of a loss has received
   * exactly the cleaned newline-split of everything fed in so far.
   */
  lemma PolledLinesAreTheStream(clean: string -> string, capacity: nat, states: seq<State>, acts: seq<Act>, k: nat)
    requires Run(clean, capacity, states, acts) && k < |acts| && acts[k] == Poll
    requires !states[k + 1].reader.lossy
    ensures states[k + 1].reader.heard == Delivered(Cleaned(clean, CompleteLines(StreamText(acts[..k]))))
  {
    var lines := Cleaned(clean, CompleteLines(StreamText(acts[..k])));
    StreamIsConserved(clean, capacity, states, acts, k);
    assert Follows(clean, states[k], acts[k], states[k + 1]);
    PollStep(clean, states[k], lines);
    HeardAll(states[k + 1], lines);
  }

  lemma HeardAll(s: State, lines: seq<string>)
    requires Heard(s, lines) && !s.reader.lossy && s.reader.cursor == |lines|
    ensures s.reader.heard == Delivered(lines)
  {
    forall k | 0 <= k < |lines|
      ensures s.reader.heard[k] == Some(lines[k])
    {
      assert s.reader.heard[k].Some?;
    }
  }

  /**
   * A poll reports a loss if and only if more complete lines arrived since the
   * reader's previous poll than the hub keeps.
   */
  lemma LossIsReportedExactly(clean: string -> string, capacity: nat, states: seq<State>, acts: seq<Act>, k: nat)
    requires Run(clean, capacity, states, acts) && k < |states|
    ensures states[k].hub.Since(states[k].reader.cursor).dropped
       <==> |CompleteLines(StreamText(acts[..k]))| - states[k].reader.cursor > capacity
  {
    StreamIsConserved(clean, capacity, states, acts, k);
    SinceIsExact(states[k].hub, Cleaned(clean, CompleteLines(StreamText(acts[..k]))), states[k].reader.cursor);
  }

  // ---- The classes ----

  class RingBuffer<T> {
    var buf: seq<T>
    const capacity: nat

    constructor (capacity: nat)
      ensures buf == [] && this.capacity == capacity
    {
      this.capacity := capacity;
      buf := [];
    }

    method Push(item: T)
      requires |buf| <= capacity
      modifies this`buf
      ensures buf == LastN(old(buf) + [item], capacity)
    {
      buf := buf + [item];
      if |buf| > capacity {
        buf := buf[1..];
      }
    }
  }

  class LogHub {
    const ring: RingBuffer<string>
    const clean: string -> string
    var seqNo: nat

    ghost function Value(): Hub
      reads this, ring
    {
      Hub(ring.capacity, ring.buf, seqNo)
    }

    /** The hub has been sent `lines`, cleaned, since it was made. */
    ghost predicate Sent(lines: seq<string>)
      reads this, ring
    {
      Value().Holds(lines)
    }

    constructor (capacity: nat, clean: string -> string)
      ensures Sent([]) && fresh(ring) && ring.capacity == capacity && this.clean == clean
    {
      ring := new RingBuffer<string>(capacity);
      this.clean := clean;
      seqNo := 0;
    }

    method Push(line: string, ghost lines: seq<string>)
      requires Sent(lines)
      modifies this`seqNo, ring`buf
      ensures Sent(lines + [clean(line)]) && Value() == old(Value()).Push(clean(line))
    {
      PushKeepsTheTail(Value(), lines, clean(line));
      ring.Push(clean(line));
      seqNo := seqNo + 1;
    }

    /** `since`: the lines from the cursor on, and whether some were lost in between. */
    method Since(cursor: nat, ghost lines: seq<string>) returns (slice: Slice)
      requires Sent(lines)
      ensures slice == Value().Since(cursor)
      ensures cursor <= |lines| ==> slice == Slice(LastN(lines[cursor..], ring.capacity), |lines|,
                                                   |lines| - cursor > ring.capacity)
      ensures cursor >= |lines| ==> slice == Slice([], |lines|, false)
    {
      var all := ring.buf;
      var oldest := seqNo - |all|;
      var start := Max(cursor, oldest);
      slice := Slice(if start - oldest > |all| then [] else all[start - oldest..], seqNo, cursor < oldest);
      if cursor <= |lines| {
        SinceIsExact(Value(), lines, cursor);
      } else {
        FutureCursorIsSilent(Value(), lines, cursor);
      }
    }

    method Recent(tail: nat, ghost lines: seq<string>) returns (recent: seq<string>)
      requires Sent(lines)
      ensures recent == LastN(lines, Min(tail, ring.capacity))
    {
      RecentIsTheTail(Value(), lines, tail);
      recent := ring.buf[Max(0, |ring.buf| - tail)..];
    }
  }

  /** A splitter wired to a hub: each complete line it finds is pushed there. */
  class LineSplitter {
    const hub: LogHub
    var carry: string

    /** What has reached the hub when `text` has been ingested. */
    ghost predicate Ingested(text: string)
      reads this, hub, hub.ring
    {
      carry == Partial(text) && hub.Sent(Cleaned(hub.clean, CompleteLines(text)))
    }

    constructor (hub: LogHub)
      requires hub.Sent([])
      ensures this.hub == hub && Ingested("")
    {
      this.hub := hub;
      carry := "";
    }

    method Ingest(chunk: string, ghost text: string)
      requires Ingested(text)
      modifies this`carry, hub`seqNo, hub.ring`buf
      ensures Ingested(text + chunk)
    {
      PartialContinues(text, chunk);
      var parts := Split(carry + chunk, NEWLINE);
      carry := parts[|parts| - 1];
      parts := parts[..|parts| - 1];
      ghost var done := Cleaned(hub.clean, CompleteLines(text));
      var k := 0;
      while k < |parts|
        invariant 0 <= k <= |parts|
        invariant hub.Sent(done + Cleaned(hub.clean, parts[..k]))
        invariant carry == Partial(text + chunk)
      {
        hub.Push(parts[k], done + Cleaned(hub.clean, parts[..k]));
        CleanedNext(hub.clean, done, parts, k);
        k := k + 1;
      }
      assert parts[..k] == parts;
      CleanedAppend(hub.clean, CompleteLines(text), parts);
    }

    /** The end of the stream: a pending partial line goes out as a line of its own. */
    method Flush(ghost text: string)
      requires Ingested(text)
      modifies this`carry, hub`seqNo, hub.ring`buf
      ensures Ingested(if Partial(text) == "" then text else text + [NEWLINE])
    {
      if carry != "" {
        NewlineEndsThePartial(text);
        CleanedAppend(hub.clean, CompleteLines(text), [Partial(text)]);
        assert Cleaned(hub.clean, [Partial(text)]) == [hub.clean(Partial(text))];
        hub.Push(carry, Cleaned(hub.clean, CompleteLines(text)));
        carry := "";
      }
    }
  }
}
