/** Lines of a text, and records of which lines a reader was given; shared by the log modules. */
module Lines {
  import opened Basics

  const NEWLINE := '\n'

  /** The lines that a text ends with a newline. */
  function CompleteLines(text: string): seq<string> {
    Split(text, NEWLINE)[..|Split(text, NEWLINE)| - 1]
  }

  /** What follows the last newline of a text. */
  function Partial(text: string): (r: string)
    ensures |r| <= |text|
  {
    PartsAreShort(text);
    Split(text, NEWLINE)[|Split(text, NEWLINE)| - 1]
  }

  lemma {:induction false} PartsAreShort(text: string)
    ensures forall part <- Split(text, NEWLINE) :: |part| <= |text|
  {
    if text != [] { PartsAreShort(text[1..]); }
  }

  /** Put back together with newlines, the complete lines and the rest are the text: nothing is lost in splitting. */
  lemma LinesRejoin(text: string)
    ensures Join(CompleteLines(text) + [Partial(text)], NEWLINE) == text
  {
    var parts := Split(text, NEWLINE);
    assert parts[..|parts| - 1] + [parts[|parts| - 1]] == parts;
    JoinSplit(text, NEWLINE);
  }

  /** An offset at which a line begins. */
  predicate Boundary(file: string, offset: nat) {
    offset == 0 || (offset <= |file| && file[offset - 1] == NEWLINE)
  }

  /** The partial line is the end of the text, free of newlines, and a line begins there. */
  lemma {:induction false} PartialIsTheEnd(text: string)
    ensures |Partial(text)| <= |text| && text[|text| - |Partial(text)|..] == Partial(text)
    ensures Boundary(text, |text| - |Partial(text)|)
    ensures Free(Partial(text), NEWLINE)
  {
    PartsAreFree(text, NEWLINE);
    if text != [] {
      var rest := text[1..];
      PartialIsTheEnd(rest);
      if |Split(rest, NEWLINE)| == 1 && text[0] != NEWLINE {
        SplitIsOneIff(rest);
        assert Split(rest, NEWLINE) == [rest] by { SplitFree(rest, NEWLINE); }
        assert Partial(text) == [text[0]] + rest == text;
      } else {
        assert Partial(text) == Partial(rest);
        var at := |rest| - |Partial(rest)|;
        assert at > 0 ==> text[at] == rest[at - 1];
        assert at == 0 ==> Partial(rest) == rest;
        if at == 0 { SplitIsOneIff(rest); }
      }
    }
  }

  lemma {:induction false} SplitIsOneIff(text: string)
    ensures |Split(text, NEWLINE)| == 1 <==> Free(text, NEWLINE)
  {
    if text != [] {
      SplitIsOneIff(text[1..]);
      assert text == [text[0]] + text[1..];
    }
  }

  lemma GlueFromTheLast(p: seq<string>, q: seq<string>)
    requires |p| >= 1 && |q| >= 1
    ensures Glue(p, q) == p[..|p| - 1] + Glue([p[|p| - 1]], q)
  {
  }

  lemma DropLastOfSum(a: seq<string>, b: seq<string>)
    requires |b| >= 1
    ensures (a + b)[..|a + b| - 1] == a + b[..|b| - 1] && (a + b)[|a + b| - 1] == b[|b| - 1]
  {
  }

  /** More text after a partial line continues that line. */
  lemma PartialContinues(text: string, more: string)
    ensures Partial(text + more) == Partial(Partial(text) + more)
    ensures CompleteLines(text + more) == CompleteLines(text) + CompleteLines(Partial(text) + more)
  {
    var p, q := Split(text, NEWLINE), Split(more, NEWLINE);
    assert Split(text + more, NEWLINE) == Glue(p, q) by { SplitAppend(text, NEWLINE, more); }
    assert Split(Partial(text) + more, NEWLINE) == Glue([p[|p| - 1]], q) by {
      PartsAreFree(text, NEWLINE);
      SplitFree(Partial(text), NEWLINE);
      SplitAppend(Partial(text), NEWLINE, more);
    }
    GlueFromTheLast(p, q);
    DropLastOfSum(p[..|p| - 1], Glue([p[|p| - 1]], q));
  }

  lemma LastOfSum(p: seq<string>, last: string)
    requires |p| >= 1
    ensures (p + [last])[..|p + [last]| - 1] == p[..|p| - 1] + [p[|p| - 1]] && (p + [last])[|p|] == last
  {
  }

  lemma NewlineEndsThePartial(text: string)
    ensures CompleteLines(text + [NEWLINE]) == CompleteLines(text) + [Partial(text)]
    ensures Partial(text + [NEWLINE]) == ""
  {
    assert text + [NEWLINE] + "" == text + [NEWLINE];
    SplitAt(text, NEWLINE, "");
    LastOfSum(Split(text, NEWLINE), "");
  }

  // ---- What a reader was given ----

  function Gap(n: int): (r: seq<Option<string>>)
    ensures |r| == Max(n, 0) && forall k :: 0 <= k < |r| ==> r[k] == None
  {
    seq(Max(n, 0), _ => None)
  }

  function Delivered(lines: seq<string>): (r: seq<Option<string>>)
    ensures |r| == |lines| && forall k :: 0 <= k < |r| ==> r[k] == Some(lines[k])
  {
    seq(|lines|, k requires 0 <= k < |lines| => Some(lines[k]))
  }

  /** The last lines of `total` as a reader is given them: a gap for each line before. */
  function Padded(lines: seq<string>, total: int): seq<Option<string>> { Gap(total - |lines|) + Delivered(lines) }

  /** `lines` are the last of `all`. */
  predicate IsTailOf(lines: seq<string>, all: seq<string>) {
    |lines| <= |all| && lines == all[|all| - |lines|..]
  }

  lemma PaddedTailIsFaithful(lines: seq<string>, all: seq<string>)
    requires IsTailOf(lines, all)
    ensures |Padded(lines, |all|)| == |all|
    ensures Faithful(Padded(lines, |all|), all, |lines| < |all|)
  {
    forall k | |all| - |lines| <= k < |all|
      ensures all[k] == lines[k - (|all| - |lines|)]
    {
    }
  }

  /**
   * `heard` has one entry per line, from the first: the line itself, or None
   * for a line the reader was not given, which is then admitted as `lossy`.
   */
  ghost predicate Faithful(heard: seq<Option<string>>, lines: seq<string>, lossy: bool) {
    && |heard| <= |lines|
    && (forall k :: 0 <= k < |heard| ==>
          (heard[k].Some? ==> heard[k].value == lines[k]) && (heard[k].None? ==> lossy))
  }

  lemma FaithfulGrows(heard: seq<Option<string>>, lines: seq<string>, lossy: bool,
                      added: seq<Option<string>>, dropped: bool)
    requires Faithful(heard, lines, lossy) && Faithful(added, lines[|heard|..], dropped)
    ensures Faithful(heard + added, lines, lossy || dropped)
  {
    forall k | |heard| <= k < |heard| + |added|
      ensures (heard + added)[k] == added[k - |heard|] && lines[k] == lines[|heard|..][k - |heard|]
    {
    }
  }
}
