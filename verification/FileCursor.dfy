/**
 * Byte-offset cursors into a log file: `readFileSlice`. A reader comes back
 * with the `nextOffset` of its last read while the file keeps growing.
 * The file's text has one byte a character.
 */
module FileCursor {
  import opened Basics
  import opened Lines

  datatype FileSlice = FileSlice(lines: seq<string>, nextOffset: nat, truncated: bool)

  /** Where the read starts before the cap: a file that shrank is read from its start. */
  function Resumed(file: string, offset: nat): (r: nat)
    ensures r <= |file|
  {
    if offset > |file| then 0 else offset
  }

  predicate Capped(file: string, offset: nat, maxBytes: nat) {
    |file| - Resumed(file, offset) > maxBytes
  }

  /** The first byte actually read. */
  function Start(file: string, offset: nat, maxBytes: nat): (r: nat)
    ensures Resumed(file, offset) <= r <= |file|
  {
    if Capped(file, offset, maxBytes) then |file| - maxBytes else Resumed(file, offset)
  }

  function Slice(file: string, offset: nat, maxBytes: nat): FileSlice {
    var from := Start(file, offset, maxBytes);
    if from == |file| then FileSlice([], |file|, false)
    else
      var text := file[from..];
      var complete := CompleteLines(text);
      FileSlice(if Capped(file, offset, maxBytes) && |complete| > 0 then complete[1..] else complete,
                |file| - |Partial(text)|,
                Capped(file, offset, maxBytes))
  }

  /** `readFileSlice`; `file` is None when there is no such file. */
  method ReadFileSlice(file: Option<string>, offset: nat, maxBytes: nat) returns (r: Option<FileSlice>)
    ensures r == if file.None? then None else Some(Slice(file.value, offset, maxBytes))
  {
    if file.None? { return None; }
    var size := |file.value|;
    var from := if offset > size then 0 else offset;
    var truncated := false;
    if size - from > maxBytes {
      from := size - maxBytes;
      truncated := true;
    }
    if from >= size { return Some(FileSlice([], size, false)); }
    assert from == Start(file.value, offset, maxBytes);
    var text := file.value[from..];
    var parts := Split(text, NEWLINE);
    var partial := parts[|parts| - 1];
    assert partial == Partial(text);
    parts := parts[..|parts| - 1];
    if truncated && |parts| > 0 {
      parts := parts[1..];
    }
    r := Some(FileSlice(parts, from + |text| - |partial|, truncated));
  }

  // ---- One read ----

  lemma NothingPartialAtABoundary(file: string, offset: nat)
    requires offset <= |file| && Boundary(file, offset)
    ensures Partial(file[..offset]) == ""
  {
    if offset > 0 {
      NewlineEndsThePartial(file[..offset - 1]);
      assert file[..offset] == file[..offset - 1] + [NEWLINE];
    }
  }

  /** Cutting a file where a line begins cuts its list of lines. */
  lemma LinesFromABoundary(file: string, offset: nat)
    requires offset <= |file| && Boundary(file, offset)
    ensures CompleteLines(file) == CompleteLines(file[..offset]) + CompleteLines(file[offset..])
    ensures Partial(file) == Partial(file[offset..])
  {
    NothingPartialAtABoundary(file, offset);
    PartialContinues(file[..offset], file[offset..]);
    assert file[..offset] + file[offset..] == file;
    assert "" + file[offset..] == file[offset..];
  }

  /** The lines up to the last line beginning are all the complete lines. */
  lemma LinesUpToTheLast(file: string)
    ensures |Partial(file)| <= |file|
    ensures CompleteLines(file[..|file| - |Partial(file)|]) == CompleteLines(file)
  {
    PartialIsTheEnd(file);
    var at := |file| - |Partial(file)|;
    LinesFromABoundary(file, at);
    SplitFree(Partial(file), NEWLINE);
    assert CompleteLines(file[at..]) == [];
    assert CompleteLines(file[..at]) + [] == CompleteLines(file[..at]);
  }

  /** Cutting a file anywhere: the lines that end before the cut come first, and each later newline ends one more. */
  lemma LinesAroundACut(file: string, offset: nat)
    requires offset <= |file|
    ensures CompleteLines(file[..offset]) <= CompleteLines(file)
    ensures |CompleteLines(file)| == |CompleteLines(file[..offset])| + |CompleteLines(file[offset..])|
  {
    var before, after := file[..offset], file[offset..];
    assert before + after == file;
    PartialContinues(before, after);
    SplitAppend(before, NEWLINE, after);
  }

  /** Where a window holds a newline, its lines but the first are the last lines of the text it ends. */
  lemma WindowLines(before: string, window: string)
    requires !Free(window, NEWLINE)
    ensures Partial(before + window) == Partial(window)
    ensures |CompleteLines(before + window)| >= |CompleteLines(window)| >= 1
    ensures IsEndOf(CompleteLines(window)[1..], CompleteLines(before + window))
  {
    var p, q := Partial(before), Split(window, NEWLINE);
    SplitIsOneIff(window);
    PartialContinues(before, window);
    PartsAreFree(before, NEWLINE);
    assert Split(p + window, NEWLINE) == Glue([p], q) by {
      SplitFree(p, NEWLINE);
      SplitAppend(p, NEWLINE, window);
    }
    GluedToOne(p, q);
    EndOfSum(CompleteLines(before), CompleteLines(p + window));
  }

  lemma GluedToOne(p: string, q: seq<string>)
    requires |q| > 1
    ensures Glue([p], q)[..|q| - 1][1..] == q[..|q| - 1][1..] && Glue([p], q)[|q| - 1] == q[|q| - 1]
  {
  }

  lemma EndOfSum(a: seq<string>, b: seq<string>)
    requires |b| >= 1
    ensures IsEndOf(b[1..], a + b)
  {
  }

  /** `lines` are the last of `all`, and not all of them. */
  predicate IsEndOf(lines: seq<string>, all: seq<string>) { IsTailOf(lines, all) && |lines| < |all| }

  lemma CappedSlice(file: string, offset: nat, maxBytes: nat)
    requires Capped(file, offset, maxBytes) && !Free(file[|file| - maxBytes..], NEWLINE)
    ensures var r, window := Slice(file, offset, maxBytes), file[|file| - maxBytes..];
            && |CompleteLines(window)| >= 1 && r.lines == CompleteLines(window)[1..]
            && r.nextOffset == |file| - |Partial(window)| && r.truncated
  {
    SplitIsOneIff(file[|file| - maxBytes..]);
  }

  /** An uncapped read from a line beginning returns every complete line and stops after the last. */
  lemma WholeRead(file: string, offset: nat, maxBytes: nat)
    requires Boundary(file, Resumed(file, offset)) && !Capped(file, offset, maxBytes)
    ensures var r := Slice(file, offset, maxBytes);
            r == FileSlice(CompleteLines(file[Resumed(file, offset)..]), |file| - |Partial(file)|, false)
  {
    var from := Resumed(file, offset);
    LinesFromABoundary(file, from);
    if from == |file| {
      assert file[from..] == "";
    }
  }

  /**
   * A capped read whose window holds a newline still stops after the last
   * complete line, returns the last of the complete lines, says so, and has
   * skipped at least one.
   */
  lemma CappedRead(file: string, offset: nat, maxBytes: nat)
    requires Boundary(file, Resumed(file, offset)) && Capped(file, offset, maxBytes)
    requires !Free(file[|file| - maxBytes..], NEWLINE)
    ensures var r, all := Slice(file, offset, maxBytes), CompleteLines(file[Resumed(file, offset)..]);
            r.nextOffset == |file| - |Partial(file)| && r.truncated && IsEndOf(r.lines, all)
  {
    var from, at := Resumed(file, offset), |file| - maxBytes;
    LinesFromABoundary(file, from);
    CappedSlice(file, offset, maxBytes);
    assert file[from..] == file[from..at] + file[at..];
    WindowLines(file[from..at], file[at..]);
  }

  /** The read was not capped, or its window holds a newline. */
  predicate KeepsToLines(file: string, offset: nat, maxBytes: nat) {
    !Capped(file, offset, maxBytes) || !Free(file[|file| - maxBytes..], NEWLINE)
  }

  /**
   * `nextOffset` is a line beginning exactly when the read was not capped, or
   * its window held a newline, or happened to start where a line begins.
   */
  lemma NextOffsetIsABoundaryIff(file: string, offset: nat, maxBytes: nat)
    requires Boundary(file, Resumed(file, offset))
    ensures Boundary(file, Slice(file, offset, maxBytes).nextOffset)
       <==> KeepsToLines(file, offset, maxBytes) || Boundary(file, |file| - maxBytes)
  {
    PartialIsTheEnd(file);
    if !Capped(file, offset, maxBytes) {
      WholeRead(file, offset, maxBytes);
    } else if !Free(file[|file| - maxBytes..], NEWLINE) {
      CappedRead(file, offset, maxBytes);
    } else {
      SplitFree(file[|file| - maxBytes..], NEWLINE);
    }
  }

  // ---- What one read leaves out ----

  /**
   * Reading on from inside a line: the read returns lines of the file exactly
   * when it starts where a line begins, or no line ends in what it reads.
   */
  lemma UncappedReadIsTrueIff(file: string, offset: nat, maxBytes: nat)
    requires offset <= |file| && !Capped(file, offset, maxBytes)
    ensures IsTailOf(Slice(file, offset, maxBytes).lines, CompleteLines(file))
       <==> Boundary(file, offset) || Free(file[offset..], NEWLINE)
  {
    var before, after := file[..offset], file[offset..];
    assert before + after == file;
    SplitIsOneIff(after);
    if Boundary(file, offset) {
      LinesFromABoundary(file, offset);
    } else if !Free(after, NEWLINE) {
      SplitFirst(before, after);
      PartialInside(file, offset);
    }
  }

  /** The line that runs across a cut is longer than what follows the cut. */
  lemma SplitFirst(before: string, after: string)
    requires !Free(after, NEWLINE)
    ensures |CompleteLines(after)| >= 1 && |CompleteLines(before + after)| >= |CompleteLines(after)|
    ensures CompleteLines(before + after)[|CompleteLines(before + after)| - |CompleteLines(after)|]
         == Partial(before) + CompleteLines(after)[0]
  {
    SplitIsOneIff(after);
    SplitAppend(before, NEWLINE, after);
  }

  lemma PartialInside(file: string, offset: nat)
    requires offset <= |file| && !Boundary(file, offset)
    ensures Partial(file[..offset]) != ""
  {
    PartialIsTheEnd(file[..offset]);
  }

  /**
   * What a reader meets that starts at the end of a file which ends in a
   * partial line: the rest of that line, once it ends, as a line.
   */
  lemma FragmentReadAsALine(before: string, rest: string, maxBytes: nat)
    requires Free(rest, NEWLINE) && |rest| < maxBytes
    ensures Slice(before + (rest + [NEWLINE]), |before|, maxBytes) == FileSlice([rest], |before| + |rest| + 1, false)
  {
    var file := before + (rest + [NEWLINE]);
    assert file[|before|..] == rest + [NEWLINE];
    SplitFree(rest, NEWLINE);
    NewlineEndsThePartial(rest);
  }

  /** An instance: `ab` was there, `c` and the newline came later; the file's only line is `abc`. */
  lemma FragmentReadAsALineOccurs()
    ensures Slice("ab" + ("c" + [NEWLINE]), 2, 8).lines == ["c"]
    ensures CompleteLines("abc" + [NEWLINE]) == ["abc"]
  {
    FragmentReadAsALine("ab", "c", 8);
    SplitFree("abc", NEWLINE);
    NewlineEndsThePartial("abc");
  }

  /** The first place at or after `at` where a line begins, or the end of the file. */
  function FirstLineFrom(file: string, at: nat): (b: nat)
    requires at <= |file|
    ensures at <= b <= |file| && (b < |file| ==> Boundary(file, b))
    ensures forall k :: at <= k < b ==> !Boundary(file, k)
    decreases |file| - at
  {
    if at == |file| || Boundary(file, at) then at else FirstLineFrom(file, at + 1)
  }

  /**
   * A capped read whose window holds a newline returns the lines that begin in
   * the window, except that it drops the first of them exactly when the window
   * starts where a line begins.
   */
  lemma CappedReadDropsAWholeLineIff(file: string, offset: nat, maxBytes: nat)
    requires Capped(file, offset, maxBytes) && !Free(file[|file| - maxBytes..], NEWLINE)
    ensures var at := |file| - maxBytes;
            var whole, lines := CompleteLines(file[FirstLineFrom(file, at)..]), Slice(file, offset, maxBytes).lines;
            && (Boundary(file, at) ==> |whole| >= 1 && lines == whole[1..])
            && (!Boundary(file, at) ==> lines == whole)
            && (|lines| < |whole| <==> Boundary(file, at))
  {
    CappedSlice(file, offset, maxBytes);
    if !Boundary(file, |file| - maxBytes) {
      FragmentThenLines(file, |file| - maxBytes);
    }
  }

  /** From inside a line: the rest of that line, then the lines that begin later. */
  lemma FragmentThenLines(file: string, at: nat)
    requires at <= |file| && !Boundary(file, at) && !Free(file[at..], NEWLINE)
    ensures |CompleteLines(file[at..])| >= 1
    ensures CompleteLines(file[at..])[1..] == CompleteLines(file[FirstLineFrom(file, at)..])
  {
    FirstLineIsNear(file, at);
    var b := FirstLineFrom(file, at);
    NoNewlineBefore(file, at, b);
    SplitAtTheNewline(file[at..b - 1], file[b..]);
    assert file[at..] == file[at..b - 1] + [NEWLINE] + file[b..];
  }

  lemma SplitAtTheNewline(first: string, rest: string)
    requires Free(first, NEWLINE)
    ensures |CompleteLines(first + [NEWLINE] + rest)| >= 1
    ensures CompleteLines(first + [NEWLINE] + rest)[1..] == CompleteLines(rest)
  {
    SplitAt(first, NEWLINE, rest);
    SplitFree(first, NEWLINE);
    FirstOfSum(first, Split(rest, NEWLINE));
  }

  lemma FirstOfSum(first: string, parts: seq<string>)
    requires |parts| >= 1
    ensures ([first] + parts)[..|parts|][1..] == parts[..|parts| - 1]
  {
  }

  lemma {:induction false} FirstLineIsNear(file: string, at: nat)
    requires at <= |file| && !Free(file[at..], NEWLINE) && !Boundary(file, at)
    ensures at < FirstLineFrom(file, at) && Boundary(file, FirstLineFrom(file, at))
    decreases |file| - at
  {
    var k :| 0 <= k < |file[at..]| && file[at..][k] == NEWLINE;
    assert Boundary(file, at + k + 1);
  }

  lemma NoNewlineBefore(file: string, at: nat, b: nat)
    requires at < b <= |file| && forall k :: at <= k < b ==> !Boundary(file, k)
    ensures Free(file[at..b - 1], NEWLINE)
  {
    forall k | at <= k < b - 1
      ensures file[k] != NEWLINE
    {
      assert !Boundary(file, k + 1);
    }
  }

  /** An instance: the second line fits the window and is dropped with it. */
  lemma WholeLineDropped()
    ensures Slice("a" + [NEWLINE] + "b" + [NEWLINE], 0, 2) == FileSlice([], 4, true)
    ensures Boundary("a" + [NEWLINE] + "b" + [NEWLINE], 2)
  {
    var file := "a" + [NEWLINE] + "b" + [NEWLINE];
    assert file[2..] == "b" + [NEWLINE];
    SplitFree("b", NEWLINE);
    NewlineEndsThePartial("b");
  }

  /** A read says that it skipped something exactly when it was capped and may read at all. */
  lemma TruncatedIffCapped(file: string, offset: nat, maxBytes: nat)
    ensures Slice(file, offset, maxBytes).truncated <==> Capped(file, offset, maxBytes) && maxBytes > 0
  {
  }

  // ---- A reader following a growing file, always with the same cap ----

  datatype Act = Append(text: string) | Read

  /** `heard` has an entry per line that ends before the offset: the line, or None when a read did not return it. */
  datatype Tail = Tail(file: string, offset: nat, heard: seq<Option<string>>, capped: bool)

  function Step(s: Tail, act: Act, maxBytes: nat): Tail {
    match act
    case Append(text) => s.(file := s.file + text)
    case Read =>
      var r := Slice(s.file, s.offset, maxBytes);
      var unread := |CompleteLines(s.file[Resumed(s.file, s.offset)..])|;
      Tail(s.file, r.nextOffset, s.heard + Padded(r.lines, unread), s.capped || Capped(s.file, s.offset, maxBytes))
  }

  function Run(acts: seq<Act>, maxBytes: nat): Tail
    decreases |acts|
  {
    if acts == [] then Tail("", 0, [], false)
    else Step(Run(acts[..|acts| - 1], maxBytes), acts[|acts| - 1], maxBytes)
  }

  /**
   * Where such a reader can stand: where a line begins, or inside a line of
   * which at least a whole window is still unread.
   */
  predicate Resumable(file: string, offset: nat, maxBytes: nat) {
    && offset <= |file|
    && (Boundary(file, offset)
        || (|file| - offset >= maxBytes && Free(file[offset..offset + maxBytes], NEWLINE)))
  }

  /** The lines returned are the last of the file; lines are left out by capped reads only; and nothing complete is left unread. */
  predicate Honest(file: string, offset: nat, maxBytes: nat)
    requires offset <= |file|
  {
    var r, unread := Slice(file, offset, maxBytes), |CompleteLines(file[offset..])|;
    && IsTailOf(r.lines, CompleteLines(file))
    && |r.lines| <= unread && (|r.lines| < unread ==> Capped(file, offset, maxBytes))
    && r.nextOffset <= |file| && |CompleteLines(file[..r.nextOffset])| == |CompleteLines(file)|
  }

  lemma NothingEndsAfter(file: string, offset: nat)
    requires offset <= |file| && Free(file[offset..], NEWLINE)
    ensures CompleteLines(file[offset..]) == [] && Partial(file[offset..]) == file[offset..]
    ensures |CompleteLines(file[..offset])| == |CompleteLines(file)|
  {
    SplitFree(file[offset..], NEWLINE);
    LinesAroundACut(file, offset);
  }

  lemma UncappedIsHonest(file: string, offset: nat, maxBytes: nat)
    requires Resumable(file, offset, maxBytes) && !Capped(file, offset, maxBytes)
    ensures Honest(file, offset, maxBytes) && Resumable(file, Slice(file, offset, maxBytes).nextOffset, maxBytes)
  {
    if Boundary(file, offset) {
      WholeRead(file, offset, maxBytes);
      LinesFromABoundary(file, offset);
      LinesUpToTheLast(file);
      PartialIsTheEnd(file);
    } else {
      assert file[offset..offset + maxBytes] == file[offset..];
      NothingEndsAfter(file, offset);
    }
  }

  lemma CappedIsHonest(file: string, offset: nat, maxBytes: nat)
    requires Resumable(file, offset, maxBytes) && Capped(file, offset, maxBytes)
    ensures Honest(file, offset, maxBytes) && Resumable(file, Slice(file, offset, maxBytes).nextOffset, maxBytes)
  {
    var at := |file| - maxBytes;
    if Free(file[at..], NEWLINE) {
      NothingEndsAfter(file, at);
      assert file[at..at + maxBytes] == file[at..];
    } else {
      CappedSlice(file, offset, maxBytes);
      EndOfWindow(file, 0, at);
      EndOfWindow(file, offset, at);
      LinesUpToTheLast(file);
      PartialIsTheEnd(file);
    }
  }

  lemma EndOfWindow(file: string, from: nat, at: nat)
    requires from <= at <= |file| && !Free(file[at..], NEWLINE)
    ensures Partial(file[from..]) == Partial(file[at..]) && |CompleteLines(file[at..])| >= 1
    ensures IsEndOf(CompleteLines(file[at..])[1..], CompleteLines(file[from..]))
    ensures from == 0 ==> file[from..] == file
  {
    assert file[from..] == file[from..at] + file[at..];
    WindowLines(file[from..at], file[at..]);
  }

  /** The reader stands where it may, and knows every line that ended before, or that a capped read left it out. */
  ghost predicate Followed(s: Tail, maxBytes: nat) {
    && Resumable(s.file, s.offset, maxBytes)
    && |s.heard| == |CompleteLines(s.file[..s.offset])|
    && Faithful(s.heard, CompleteLines(s.file), s.capped)
  }

  lemma AppendStep(s: Tail, text: string, maxBytes: nat)
    requires Followed(s, maxBytes)
    ensures Followed(Step(s, Append(text), maxBytes), maxBytes)
  {
    PartialContinues(s.file, text);
    var file := s.file + text;
    assert file[..s.offset] == s.file[..s.offset];
    if !Boundary(s.file, s.offset) {
      assert file[s.offset..s.offset + maxBytes] == s.file[s.offset..s.offset + maxBytes];
    }
  }

  lemma ReadStep(s: Tail, maxBytes: nat)
    requires Followed(s, maxBytes)
    ensures Honest(s.file, s.offset, maxBytes)
    ensures Followed(Step(s, Read, maxBytes), maxBytes)
    ensures |Step(s, Read, maxBytes).heard| == |CompleteLines(s.file)|
  {
    if Capped(s.file, s.offset, maxBytes) {
      CappedIsHonest(s.file, s.offset, maxBytes);
    } else {
      UncappedIsHonest(s.file, s.offset, maxBytes);
    }
    LinesAroundACut(s.file, s.offset);
    var r, unread := Slice(s.file, s.offset, maxBytes), |CompleteLines(s.file[s.offset..])|;
    HeardGrows(s.heard, CompleteLines(s.file), s.capped, r.lines, unread, Capped(s.file, s.offset, maxBytes));
  }

  lemma HeardGrows(heard: seq<Option<string>>, all: seq<string>, lossy: bool, lines: seq<string>, unread: nat, capped: bool)
    requires Faithful(heard, all, lossy) && |heard| + unread == |all|
    requires IsTailOf(lines, all) && |lines| <= unread && (|lines| < unread ==> capped)
    ensures |heard + Padded(lines, unread)| == |all|
    ensures Faithful(heard + Padded(lines, unread), all, lossy || capped)
  {
    var rest := all[|heard|..];
    assert rest[|rest| - |lines|..] == all[|all| - |lines|..];
    PaddedTailIsFaithful(lines, rest);
    FaithfulGrows(heard, all, lossy, Padded(lines, unread), |lines| < unread);
  }

  /**
   * Following a growing file, over every run of appends and reads with one
   * cap: each returned line is a complete line of the file at its place, and
   * each line not returned was left out by a capped read. A reader that has
   * just read has an entry for every complete line.
   */
  lemma {:induction false} ReadersGetTrueLines(acts: seq<Act>, maxBytes: nat)
    ensures Followed(Run(acts, maxBytes), maxBytes)
    ensures acts != [] && acts[|acts| - 1] == Read ==>
              |Run(acts, maxBytes).heard| == |CompleteLines(Run(acts, maxBytes).file)|
    decreases |acts|
  {
    if acts != [] {
      var n := |acts| - 1;
      ReadersGetTrueLines(acts[..n], maxBytes);
      if acts[n] == Read {
        ReadStep(Run(acts[..n], maxBytes), maxBytes);
      } else {
        AppendStep(Run(acts[..n], maxBytes), acts[n].text, maxBytes);
      }
    }
  }

  /** The same of each read in a run: it returns last lines of the file, and says so when it leaves any out. */
  lemma EveryReadIsHonest(acts: seq<Act>, maxBytes: nat, k: nat)
    requires k < |acts| && acts[k] == Read
    ensures var s := Run(acts[..k], maxBytes);
            var r := Slice(s.file, s.offset, maxBytes);
            && s.offset <= |s.file| && Honest(s.file, s.offset, maxBytes)
            && (|r.lines| < |CompleteLines(s.file[s.offset..])| ==> r.truncated || maxBytes == 0)
  {
    var s := Run(acts[..k], maxBytes);
    ReadersGetTrueLines(acts[..k], maxBytes);
    ReadStep(s, maxBytes);
    TruncatedIffCapped(s.file, s.offset, maxBytes);
  }

  /** The file and offset after `n` acts: the offset is where a line begins. */
  ghost predicate OnALine(acts: seq<Act>, maxBytes: nat, n: nat)
    requires n <= |acts|
  {
    Boundary(Run(acts[..n], maxBytes).file, Run(acts[..n], maxBytes).offset)
  }

  /** Act `k`, if it is a read, was uncapped, or its window holds a newline or starts where a line begins. */
  ghost predicate LandsOnALine(acts: seq<Act>, maxBytes: nat, k: nat)
    requires k < |acts|
  {
    acts[k] == Read ==>
      var s := Run(acts[..k], maxBytes);
      KeepsToLines(s.file, s.offset, maxBytes) || Boundary(s.file, |s.file| - maxBytes)
  }

  lemma StepIsOnALineIff(s: Tail, act: Act, maxBytes: nat)
    requires s.offset <= |s.file| && Boundary(s.file, s.offset)
    ensures Boundary(Step(s, act, maxBytes).file, Step(s, act, maxBytes).offset)
       <==> (act == Read ==> KeepsToLines(s.file, s.offset, maxBytes) || Boundary(s.file, |s.file| - maxBytes))
  {
    if act == Read { NextOffsetIsABoundaryIff(s.file, s.offset, maxBytes); }
  }

  lemma NextIsOnALineIff(acts: seq<Act>, maxBytes: nat, k: nat)
    requires k < |acts| && OnALine(acts, maxBytes, k)
    ensures OnALine(acts, maxBytes, k + 1) <==> LandsOnALine(acts, maxBytes, k)
  {
    assert acts[..k + 1][..k] == acts[..k];
    ReadersGetTrueLines(acts[..k], maxBytes);
    StepIsOnALineIff(Run(acts[..k], maxBytes), acts[k], maxBytes);
  }

  /** Where one property of a step decides another of the next state, it does so all the way. */
  lemma {:induction false} AllTheWay(n: nat, holds: nat -> bool, goes: nat -> bool)
    requires holds(0) && forall k: nat :: k < n && holds(k) ==> (holds(k + 1) <==> goes(k))
    ensures (forall m: nat :: m <= n ==> holds(m)) <==> (forall k: nat :: k < n ==> goes(k))
  {
    if n > 0 {
      AllTheWay(n - 1, holds, goes);
      var m: nat := n - 1;
      assert holds(m) ==> (holds(m + 1) <==> goes(m));
    }
  }

  /** All offsets of a run are where lines begin if and only if every read lands on one. */
  lemma OffsetsAreBoundariesIff(acts: seq<Act>, maxBytes: nat)
    ensures (forall m: nat :: m <= |acts| ==> OnALine(acts, maxBytes, m))
       <==> (forall k: nat :: k < |acts| ==> LandsOnALine(acts, maxBytes, k))
  {
    var holds := (m: nat) => m <= |acts| && OnALine(acts, maxBytes, m);
    var goes := (k: nat) => k < |acts| && LandsOnALine(acts, maxBytes, k);
    assert acts[..0] == [];
    forall k: nat | k < |acts| && holds(k)
      ensures holds(k + 1) <==> goes(k)
    {
      NextIsOnALineIff(acts, maxBytes, k);
    }
    AllTheWay(|acts|, holds, goes);
    assert forall m: nat :: m <= |acts| ==> (holds(m) <==> OnALine(acts, maxBytes, m));
    assert forall k: nat :: k < |acts| ==> (goes(k) <==> LandsOnALine(acts, maxBytes, k));
  }

  /** Act `k` is a read, and it was capped. */
  ghost predicate CappedAt(acts: seq<Act>, maxBytes: nat, k: nat)
    requires k < |acts|
  {
    acts[k] == Read && Capped(Run(acts[..k], maxBytes).file, Run(acts[..k], maxBytes).offset, maxBytes)
  }

  lemma {:induction false} NeverCapped(acts: seq<Act>, maxBytes: nat, n: nat)
    requires n <= |acts| && forall k: nat :: k < n ==> !CappedAt(acts, maxBytes, k)
    ensures !Run(acts[..n], maxBytes).capped
  {
    if n > 0 {
      NeverCapped(acts, maxBytes, n - 1);
      assert acts[..n][..n - 1] == acts[..n - 1] && !CappedAt(acts, maxBytes, n - 1);
    }
  }

  /**
   * A reader none of whose reads was capped, and who has just read, was given
   * exactly the complete lines of the file.
   */
  lemma UncappedReaderHasTheFile(acts: seq<Act>, maxBytes: nat)
    requires acts != [] && acts[|acts| - 1] == Read
    requires forall k: nat :: k < |acts| ==> !CappedAt(acts, maxBytes, k)
    ensures Run(acts, maxBytes).heard == Delivered(CompleteLines(Run(acts, maxBytes).file))
  {
    ReadersGetTrueLines(acts, maxBytes);
    NeverCapped(acts, maxBytes, |acts|);
    assert acts[..|acts|] == acts;
    var s := Run(acts, maxBytes);
    forall k | 0 <= k < |s.heard|
      ensures s.heard[k] == Some(CompleteLines(s.file)[k])
    {
      assert s.heard[k].Some?;
    }
  }
}
