/** Small data types and sequence facts shared by the other modules. */
module Basics {
  datatype Option<+T> = None | Some(value: T)

  datatype Result<+T> = Ok(value: T) | Err(message: string)

  /** Whether `s` begins with `prefix` (JavaScript's `startsWith`). */
  predicate StartsWith<T(==)>(s: seq<T>, prefix: seq<T>) {
    |prefix| <= |s| && s[..|prefix|] == prefix
  }

  function Max(a: int, b: int): int { if a < b then b else a }

  function Min(a: int, b: int): int { if a < b then a else b }

  /** The last `n` items (JavaScript's `slice(-n)`, for positive `n`). */
  function LastN<T>(s: seq<T>, n: nat): seq<T> {
    if |s| <= n then s else s[|s| - n..]
  }

  // ---- Splitting ----

  /** Whether `c` is not among `s`. */
  predicate Free(s: string, c: char) { c !in s }

  /** JavaScript's `split(c)`: the parts between the occurrences of `c`; never empty. */
  function Split(s: string, c: char): (parts: seq<string>)
    ensures |parts| >= 1
  {
    if s == [] then [""]
    else
      var rest := Split(s[1..], c);
      if s[0] == c then [""] + rest else Cons(s[0], rest)
  }

  /** `x` put in front of the first part. */
  function Cons(x: char, parts: seq<string>): (r: seq<string>)
    requires |parts| >= 1
    ensures |r| == |parts| && r[0] == [x] + parts[0] && forall k :: 1 <= k < |r| ==> r[k] == parts[k]
  {
    [[x] + parts[0]] + parts[1..]
  }

  /** The parts put back together with `c` between them. */
  function Join(parts: seq<string>, c: char): string
    requires |parts| >= 1
  {
    if |parts| == 1 then parts[0] else parts[0] + [c] + Join(parts[1..], c)
  }

  lemma {:induction false} SplitFree(s: string, c: char)
    requires Free(s, c)
    ensures Split(s, c) == [s]
  {
    if s != [] {
      SplitFree(s[1..], c);
      assert s[0] != c && [s[0]] + s[1..] == s;
      assert Split(s, c) == Cons(s[0], [s[1..]]);
    }
  }

  lemma SplitHead(x: char, s: string, c: char)
    ensures Split([x] + s, c) == if x == c then [""] + Split(s, c) else Cons(x, Split(s, c))
  {
    assert ([x] + s)[1..] == s;
  }

  /** Appending to the last part: `p` with `q`'s first part glued to its last one. */
  function Glue(p: seq<string>, q: seq<string>): (r: seq<string>)
    requires |p| >= 1 && |q| >= 1
    ensures |r| == |p| + |q| - 1 && r[|p| - 1] == p[|p| - 1] + q[0]
    ensures forall k :: 0 <= k < |p| - 1 ==> r[k] == p[k]
    ensures forall k :: 1 <= k < |q| ==> r[|p| - 1 + k] == q[k]
  {
    p[..|p| - 1] + [p[|p| - 1] + q[0]] + q[1..]
  }

  lemma GlueCons(x: char, p: seq<string>, q: seq<string>)
    requires |p| >= 1 && |q| >= 1
    ensures Glue(Cons(x, p), q) == Cons(x, Glue(p, q))
  {
    if |p| == 1 {
      assert [x] + p[0] + q[0] == [x] + (p[0] + q[0]);
    }
  }

  lemma GlueAfterBreak(p: seq<string>, q: seq<string>)
    requires |p| >= 1 && |q| >= 1
    ensures Glue([""] + p, q) == [""] + Glue(p, q)
  {
    var l, r := Glue([""] + p, q), [""] + Glue(p, q);
    assert forall k :: 0 <= k < |r| ==> l[k] == r[k];
  }

  lemma GlueNothing(q: seq<string>)
    requires |q| >= 1
    ensures Glue([""], q) == q
  {
    assert "" + q[0] == q[0];
  }

  lemma GlueBreak(p: seq<string>, q: seq<string>)
    requires |p| >= 1 && |q| >= 1
    ensures Glue(p, [""] + q) == p + q
  {
    assert p[|p| - 1] + "" == p[|p| - 1];
  }

  lemma SplitAppendHead(x: char, a: string, ab: string, c: char, q: seq<string>)
    requires |q| >= 1 && Split(ab, c) == Glue(Split(a, c), q)
    ensures Split([x] + ab, c) == Glue(Split([x] + a, c), q)
  {
    SplitHead(x, ab, c);
    SplitHead(x, a, c);
    if x == c {
      GlueAfterBreak(Split(a, c), q);
    } else {
      GlueCons(x, Split(a, c), q);
    }
  }

  lemma {:induction false} SplitAppend(a: string, c: char, b: string)
    ensures Split(a + b, c) == Glue(Split(a, c), Split(b, c))
  {
    if a == [] {
      assert a + b == b;
      GlueNothing(Split(b, c));
    } else {
      var x, rest := a[0], a[1..];
      var ab, q := rest + b, Split(b, c);
      assert a == [x] + rest;
      assert a + b == [x] + ab;
      assert Split(ab, c) == Glue(Split(rest, c), q) by { SplitAppend(rest, c, b); }
      SplitAppendHead(x, rest, ab, c, q);
    }
  }

  /** Splitting at one known occurrence of `c`. */
  lemma SplitAt(a: string, c: char, b: string)
    ensures Split(a + [c] + b, c) == Split(a, c) + Split(b, c)
  {
    var p, q := Split(a, c), Split(b, c);
    assert a + [c] + b == a + ([c] + b);
    SplitAppend(a, c, [c] + b);
    SplitHead(c, b, c);
    GlueBreak(p, q);
  }

  lemma {:induction false} PartsAreFree(s: string, c: char)
    ensures forall k :: 0 <= k < |Split(s, c)| ==> Free(Split(s, c)[k], c)
  {
    if s != [] {
      PartsAreFree(s[1..], c);
    }
  }

  lemma {:induction false} JoinSplit(s: string, c: char)
    ensures Join(Split(s, c), c) == s
  {
    if s != [] { JoinSplit(s[1..], c); }
  }
}
