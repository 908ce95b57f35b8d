/**
 * The JSON Pointer in `releaseSessionLock`: escaping a repository name into a
 * path under `/data`, read back by sections 3 and 4 of RFC 6901, and the patch
 * it stands in, by section 4.2 of RFC 6902.
 */
module JsonPointer {
  import opened Basics

  /** JavaScript's `replace(/c/g, by)` for one character. */
  function Replace(s: string, c: char, into: string): string {
    if s == "" then "" else (if s[0] == c then into else [s[0]]) + Replace(s[1..], c, into)
  }

  /** The program's two steps, in its order. */
  function Escape(s: string): string { Replace(Replace(s, '~', "~0"), '/', "~1") }

  // ---- RFC 6901 ----

  /** Every occurrence of `~d`, from the left, replaced by `c`. */
  function Transform(s: string, d: char, c: char): string {
    if s == "" then ""
    else if |s| > 1 && s[0] == '~' && s[1] == d then [c] + Transform(s[2..], d, c)
    else [s[0]] + Transform(s[1..], d, c)
  }

  /** Section 4: first `~1` becomes a slash, then `~0` a tilde. */
  function Unescape(s: string): string { Transform(Transform(s, '1', '/'), '0', '~') }

  /** Section 3: a tilde is followed by 0 or 1. */
  predicate WellFormed(token: string) {
    forall k :: 0 <= k < |token| && token[k] == '~' ==> k + 1 < |token| && token[k + 1] in {'0', '1'}
  }

  /** The reference tokens of a pointer, unescaped; None when it is not one. */
  function Tokens(pointer: string): Option<seq<string>> {
    if pointer == "" then Some([])
    else if pointer[0] != '/' then None
    else
      var raw := Split(pointer, '/')[1..];
      if forall t <- raw :: WellFormed(t) then
        Some(seq(|raw|, k requires 0 <= k < |raw| => Unescape(raw[k])))
      else None
  }

  // ---- The round trip ----

  /** What one character is escaped to. */
  function Code(c: char): string { if c == '~' then "~0" else if c == '/' then "~1" else [c] }

  lemma {:induction false} ReplaceAppend(a: string, b: string, c: char, into: string)
    ensures Replace(a + b, c, into) == Replace(a, c, into) + Replace(b, c, into)
  {
    if a == "" {
      assert a + b == b;
    } else {
      assert (a + b)[1..] == a[1..] + b;
      ReplaceAppend(a[1..], b, c, into);
    }
  }

  /** The two steps together escape each character on its own. */
  lemma EscapeHead(s: string)
    requires s != ""
    ensures Escape(s) == Code(s[0]) + Escape(s[1..])
  {
    var head := if s[0] == '~' then "~0" else [s[0]];
    ReplaceAppend(head, Replace(s[1..], '~', "~0"), '/', "~1");
    assert Replace(head, '/', "~1") == Code(s[0]) by {
      assert head[1..] == if s[0] == '~' then "0" else "";
      assert Replace(head[1..], '/', "~1") == head[1..] by {
        if s[0] == '~' { assert "0"[1..] == ""; }
      }
    }
  }

  /** After the first half of the evaluation only the tildes are still escaped. */
  lemma {:induction false} FirstHalf(s: string)
    ensures Transform(Escape(s), '1', '/') == Replace(s, '~', "~0")
  {
    if s != "" {
      EscapeHead(s);
      FirstHalf(s[1..]);
      var e, rest := Escape(s), Escape(s[1..]);
      if s[0] == '/' {
        assert e[2..] == rest;
      } else if s[0] == '~' {
        assert e[1..] == "0" + rest && ("0" + rest)[1..] == rest;
      } else {
        assert e[1..] == rest;
      }
    }
  }

  lemma {:induction false} SecondHalf(s: string)
    ensures Transform(Replace(s, '~', "~0"), '0', '~') == s
  {
    if s != "" {
      SecondHalf(s[1..]);
      var r, rest := Replace(s, '~', "~0"), Replace(s[1..], '~', "~0");
      if s[0] == '~' {
        assert r[2..] == rest;
      } else {
        assert r[1..] == rest;
      }
    }
  }

  lemma EscapeRoundTrips(s: string)
    ensures Unescape(Escape(s)) == s
  {
    FirstHalf(s);
    SecondHalf(s);
  }

  lemma EscapeIsInjective(a: string, b: string)
    ensures Escape(a) == Escape(b) ==> a == b
  {
    EscapeRoundTrips(a);
    EscapeRoundTrips(b);
  }

  /** An escaped name is one well-formed reference token: it holds no slash. */
  lemma {:induction false} EscapedIsOneToken(s: string)
    ensures Free(Escape(s), '/') && WellFormed(Escape(s))
  {
    if s != "" {
      EscapedIsOneToken(s[1..]);
      EscapeHead(s);
      CodeIsOneToken(s[0]);
      OneTokenAppend(Code(s[0]), Escape(s[1..]));
    }
  }

  lemma CodeIsOneToken(c: char)
    ensures Free(Code(c), '/') && WellFormed(Code(c))
  {
  }

  lemma OneTokenAppend(a: string, b: string)
    requires Free(a, '/') && WellFormed(a) && Free(b, '/') && WellFormed(b)
    ensures Free(a + b, '/') && WellFormed(a + b)
  {
    forall k | 0 <= k < |a + b| && (a + b)[k] == '~'
      ensures k + 1 < |a + b| && (a + b)[k + 1] in {'0', '1'}
    {
      if k < |a| { assert a[k] == '~'; } else { assert b[k - |a|] == '~'; }
    }
  }

  lemma TokensOfTwo(field: string, token: string)
    requires Free(field, '/') && Free(token, '/') && WellFormed(field) && WellFormed(token)
    ensures Tokens("/" + field + "/" + token) == Some([Unescape(field), Unescape(token)])
  {
    var pointer := "/" + field + "/" + token;
    assert pointer == ("" + ['/'] + field) + ['/'] + token;
    SplitAt("" + ['/'] + field, '/', token);
    SplitAt("", '/', field);
    SplitFree("", '/');
    SplitFree(field, '/');
    SplitFree(token, '/');
    assert Split(pointer, '/') == ["", field, token];
    var raw := Split(pointer, '/')[1..];
    assert raw == [field, token];
    var tokens := seq(|raw|, k requires 0 <= k < |raw| => Unescape(raw[k]));
    assert tokens == [Unescape(field), Unescape(token)];
  }

  lemma DataPointer(s: string)
    ensures Tokens("/data/" + Escape(s)) == Some(["data", s])
  {
    EscapedIsOneToken(s);
    EscapeRoundTrips(s);
    PlainIsKept("data");
    TokensOfTwo("data", Escape(s));
    assert "/" + "data" + "/" + Escape(s) == "/data/" + Escape(s);
  }

  lemma {:induction false} PlainIsKept(s: string)
    requires Free(s, '~') && Free(s, '/')
    ensures Unescape(s) == s
  {
    NothingToReplace(s, '~', "~0");
    NothingToReplace(s, '/', "~1");
    EscapeRoundTrips(s);
  }

  lemma {:induction false} NothingToReplace(s: string, c: char, into: string)
    requires Free(s, c)
    ensures Replace(s, c, into) == s
  {
    if s != "" { NothingToReplace(s[1..], c, into); }
  }

  /** Two repositories never patch at the same place. */
  lemma DataPointersDiffer(a: string, b: string)
    requires a != b
    ensures "/data/" + Escape(a) != "/data/" + Escape(b)
  {
    EscapeIsInjective(a, b);
    assert ("/data/" + Escape(a))[6..] == Escape(a) && ("/data/" + Escape(b))[6..] == Escape(b);
  }

  /** With the two steps the other way round a slash would come back as something else. */
  lemma OtherOrderFails()
    ensures Unescape(Replace(Replace("/", '/', "~1"), '~', "~0")) == "~1"
  {
    assert "/"[1..] == "" && "~1"[1..] == "1" && "1"[1..] == "";
    assert Replace("/", '/', "~1") == "~1";
    assert Replace("1", '~', "~0") == "1";
    assert Replace("~1", '~', "~0") == "~01";
    assert "~01"[1..] == "01" && "01"[1..] == "1" && "~01"[2..] == "1";
    assert Transform("1", '1', '/') == "1" && Transform("01", '1', '/') == "01";
    assert Transform("~01", '1', '/') == "~01";
    assert Transform("~01", '0', '~') == "~1";
  }

  // ---- The patch ----

  /** A ConfigMap: its string-valued objects, `data` among them. */
  type ConfigMap = map<string, map<string, string>>

  /** RFC 6902's `remove` at a path of two tokens; None when the target does not exist. */
  function Remove(record: ConfigMap, pointer: string): Option<ConfigMap> {
    var tokens := Tokens(pointer);
    if tokens.None? || |tokens.value| != 2 then None
    else
      var field, key := tokens.value[0], tokens.value[1];
      if field !in record || key !in record[field] then None
      else Some(record[field := record[field] - {key}])
  }

  /**
   * `releaseSessionLock`: once the lock of this repository is seen in `data`,
   * the patch takes away that key and nothing else, whatever the name.
   */
  lemma ReleaseRemovesOnlyItsKey(record: ConfigMap, name: string)
    requires "data" in record
    ensures Remove(record, "/data/" + Escape(name)).Some? <==> name in record["data"]
    ensures name in record["data"] ==>
              Remove(record, "/data/" + Escape(name)) == Some(record["data" := record["data"] - {name}])
  {
    DataPointer(name);
  }
}
