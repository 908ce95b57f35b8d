/**
 * Which workload a pod or deployment belongs to: `matchByName` and the list of
 * names that may claim one, `knownClusterNames`.
 */
module NameMatch {
  import opened Basics

  datatype Item<T> = Item(name: string, data: T)

  // ---- Trimming; `space` is the set of characters JavaScript's `trim` removes ----

  function TrimStart(s: string, space: set<char>): (r: string)
    ensures |r| <= |s| && r == s[|s| - |r|..] && (r == "" || r[0] !in space)
  {
    if s != "" && s[0] in space then TrimStart(s[1..], space) else s
  }

  function TrimEnd(s: string, space: set<char>): (r: string)
    ensures |r| <= |s| && r == s[..|r|] && (r == "" || r[|r| - 1] !in space)
  {
    if s != "" && s[|s| - 1] in space then TrimEnd(s[..|s| - 1], space) else s
  }

  function Trim(s: string, space: set<char>): string { TrimEnd(TrimStart(s, space), space) }

  /** A name that claims something and that trimming leaves alone. */
  predicate Proper(name: string, space: set<char>) {
    name != "" && name[0] !in space && name[|name| - 1] !in space
  }

  lemma ProperIsTrimmed(name: string, space: set<char>)
    requires name != ""
    ensures Proper(name, space) <==> Trim(name, space) == name
  {
  }

  // ---- One name ----

  /** devspace names what it deploys for `name` either `name` or `name-...`. */
  predicate Claims(name: string, item: string) {
    item == name || StartsWith(item, name + "-")
  }

  function Filter<T>(items: seq<T>, keep: T -> bool): seq<T> {
    if items == [] then [] else (if keep(items[0]) then [items[0]] else []) + Filter(items[1..], keep)
  }

  lemma {:induction false} FilterCounts<T>(items: seq<T>, keep: T -> bool, x: T)
    ensures multiset(Filter(items, keep))[x] == if keep(x) then multiset(items)[x] else 0
  {
    if items != [] {
      FilterCounts(items[1..], keep, x);
      assert items == [items[0]] + items[1..];
    }
  }

  /** Known names that extend `n`. */
  function Shadows(n: string, known: seq<string>): seq<string> {
    Filter(known, (o: string) => o != n && StartsWith(o, n + "-"))
  }

  predicate Wanted(n: string, shadows: seq<string>, name: string) {
    Claims(n, name) && !exists s <- shadows :: Claims(s, name)
  }

  function MatchByName<T>(items: seq<Item<T>>, name: string, known: seq<string>, space: set<char>): seq<Item<T>> {
    var n := Trim(name, space);
    if n == "" then [] else Filter(items, (i: Item<T>) => Wanted(n, Shadows(n, known), i.name))
  }

  /** The claim of `name` on `item` is the longest among the known names'. */
  ghost predicate Owns(name: string, item: string, known: seq<string>) {
    Claims(name, item) && forall o <- known :: Claims(o, item) ==> |o| <= |name|
  }

  lemma ClaimsAreNested(short: string, long: string, item: string)
    requires Claims(short, item) && Claims(long, item) && |short| < |long|
    ensures StartsWith(long, short + "-")
  {
    assert item[..|long|] == long;
    assert item[..|short| + 1] == short + "-";
    assert long[..|short| + 1] == item[..|long|][..|short| + 1];
  }

  lemma ClaimsOfOneLength(a: string, b: string, item: string)
    requires Claims(a, item) && Claims(b, item) && |a| == |b|
    ensures a == b
  {
    assert item[..|a|] == (a + "-")[..|a|] == a || item == a;
    assert item[..|b|] == (b + "-")[..|b|] == b || item == b;
  }

  /** An item is left out because of a shadow exactly when a longer known name claims it. */
  lemma ShadowedIff(name: string, item: string, known: seq<string>)
    requires Claims(name, item)
    ensures (exists o <- known :: o != name && StartsWith(o, name + "-") && Claims(o, item))
       <==> (exists o <- known :: |o| > |name| && Claims(o, item))
  {
    forall o <- known | |o| > |name| && Claims(o, item)
      ensures StartsWith(o, name + "-")
    {
      ClaimsAreNested(name, o, item);
    }
  }

  lemma MemberIff<T>(items: seq<T>, keep: T -> bool, x: T)
    ensures x in Filter(items, keep) <==> x in items && keep(x)
  {
    FilterCounts(items, keep, x);
    assert x in items <==> multiset(items)[x] > 0;
    assert x in Filter(items, keep) <==> multiset(Filter(items, keep))[x] > 0;
  }

  lemma ShadowsAre(n: string, known: seq<string>, o: string)
    ensures o in Shadows(n, known) <==> o in known && o != n && StartsWith(o, n + "-")
  {
    MemberIff(known, (o: string) => o != n && StartsWith(o, n + "-"), o);
  }

  lemma WantedIffOwned(n: string, item: string, known: seq<string>)
    ensures Wanted(n, Shadows(n, known), item) <==> Owns(n, item, known)
  {
    forall o: string
      ensures o in Shadows(n, known) <==> o in known && o != n && StartsWith(o, n + "-")
    {
      ShadowsAre(n, known, o);
    }
    if Claims(n, item) { ShadowedIff(n, item, known); }
  }

  /**
   * A name gets exactly the items it claims that no longer known name claims,
   * each as often as it is listed.
   */
  lemma MatchedIffOwned<T>(items: seq<Item<T>>, name: string, known: seq<string>, space: set<char>, item: Item<T>)
    requires Proper(name, space)
    ensures multiset(MatchByName(items, name, known, space))[item]
         == if Owns(name, item.name, known) then multiset(items)[item] else 0
  {
    ProperIsTrimmed(name, space);
    FilterCounts(items, (i: Item<T>) => Wanted(name, Shadows(name, known), i.name), item);
    WantedIffOwned(name, item.name, known);
  }

  lemma {:induction false} FilterAppend<T>(a: seq<T>, b: seq<T>, keep: T -> bool)
    ensures Filter(a + b, keep) == Filter(a, keep) + Filter(b, keep)
  {
    if a == [] {
      assert a + b == b;
    } else {
      var head := if keep(a[0]) then [a[0]] else [];
      assert (a + b)[1..] == a[1..] + b;
      FilterAppend(a[1..], b, keep);
      assert Filter(a + b, keep) == head + Filter(a[1..] + b, keep);
      assert head + (Filter(a[1..], keep) + Filter(b, keep)) == head + Filter(a[1..], keep) + Filter(b, keep);
    }
  }

  /** Items keep their order, and each is judged on its own. */
  lemma MatchOfAppend<T>(a: seq<Item<T>>, b: seq<Item<T>>, name: string, known: seq<string>, space: set<char>)
    ensures MatchByName(a + b, name, known, space)
         == MatchByName(a, name, known, space) + MatchByName(b, name, known, space)
  {
    var n := Trim(name, space);
    FilterAppend(a, b, (i: Item<T>) => Wanted(n, Shadows(n, known), i.name));
  }

  /** A blank name gets nothing. */
  lemma BlankMatchesNothing<T>(items: seq<Item<T>>, name: string, known: seq<string>, space: set<char>)
    requires forall c <- name :: c in space
    ensures MatchByName(items, name, known, space) == []
  {
    BlankTrims(name, space);
  }

  lemma {:induction false} BlankTrims(name: string, space: set<char>)
    requires forall c <- name :: c in space
    ensures TrimStart(name, space) == ""
  {
    if name != "" { BlankTrims(name[1..], space); }
  }

  // ---- All known names together ----

  lemma {:induction false} LongestClaim(item: string, known: seq<string>) returns (name: string)
    requires exists o <- known :: Claims(o, item)
    ensures name in known && Owns(name, item, known)
  {
    var last := known[|known| - 1];
    var rest := known[..|known| - 1];
    assert known == rest + [last];
    if exists o <- rest :: Claims(o, item) {
      name := LongestClaim(item, rest);
      if Claims(last, item) && |last| > |name| { name := last; }
    } else {
      name := last;
    }
  }

  /**
   * Attribution is a partition: an item that some known name claims goes to
   * one of them, every listed occurrence of it, and to no other; an item that
   * none claims goes to none.
   */
  lemma AttributionIsAPartition<T>(items: seq<Item<T>>, known: seq<string>, space: set<char>, item: Item<T>)
    requires forall name <- known :: Proper(name, space)
    ensures (exists o <- known :: Claims(o, item.name)) ==>
              exists owner <- known ::
                && Owns(owner, item.name, known)
                && multiset(MatchByName(items, owner, known, space))[item] == multiset(items)[item]
                && forall other <- known :: other != owner ==> item !in MatchByName(items, other, known, space)
    ensures !(exists o <- known :: Claims(o, item.name)) ==>
              forall other <- known :: item !in MatchByName(items, other, known, space)
  {
    forall other <- known
      ensures multiset(MatchByName(items, other, known, space))[item]
           == if Owns(other, item.name, known) then multiset(items)[item] else 0
    {
      MatchedIffOwned(items, other, known, space, item);
    }
    if exists o <- known :: Claims(o, item.name) {
      var owner := LongestClaim(item.name, known);
      forall other <- known | other != owner
        ensures !Owns(other, item.name, known)
      {
        if Owns(other, item.name, known) { ClaimsOfOneLength(owner, other, item.name); }
      }
    }
  }

  // ---- The names in play ----

  datatype Member = Member(name: string, kind: string)

  datatype Repo = Repo(name: string, members: seq<Member>, workloads: seq<string>)

  /** `workloadTypes`. */
  function WorkloadTypes(repo: Repo): (r: seq<Option<string>>)
    ensures |r| >= 1
  {
    if repo.members != [] then seq(|repo.members|, k requires 0 <= k < |repo.members| => Some(repo.members[k].kind))
    else if repo.workloads != [] then
      seq(|repo.workloads|, k requires 0 <= k < |repo.workloads| => Some(repo.workloads[k]))
    else [None]
  }

  function FindMember(members: seq<Member>, kind: string): Option<Member> {
    if members == [] then None
    else if members[0].kind == kind then Some(members[0])
    else FindMember(members[1..], kind)
  }

  /** The name of `scopeRepo(repo, type)`. */
  function ScopedName(repo: Repo, kind: Option<string>): string {
    if kind.None? || kind.value == "" then repo.name
    else if repo.members != [] then
      var member := FindMember(repo.members, kind.value);
      if member.Some? then member.value.name else repo.name
    else repo.name + "-" + kind.value
  }

  function Added(names: seq<string>, name: string): (r: seq<string>)
    ensures forall x :: x in r <==> x in names || x == name
    ensures Distinct(names) ==> Distinct(r)
  {
    if name in names then names else names + [name]
  }

  predicate Distinct(names: seq<string>) {
    forall i, j :: 0 <= i < j < |names| ==> names[i] != names[j]
  }

  /** A name a reconcile pass attributes pods to: a repository's own or one of its workloads'. */
  ghost predicate InPlay(repos: seq<Repo>, name: string) {
    exists r <- repos :: InPlayFor(r, name)
  }

  ghost predicate InPlayFor(repo: Repo, name: string) {
    name == repo.name || InPlayAs(repo, |WorkloadTypes(repo)|, name)
  }

  ghost predicate InPlayAs(repo: Repo, n: nat, name: string)
    requires n <= |WorkloadTypes(repo)|
  {
    exists k :: 0 <= k < n && name == ScopedName(repo, WorkloadTypes(repo)[k])
  }

  lemma InPlayNext(repos: seq<Repo>, i: nat)
    requires i < |repos|
    ensures forall name :: InPlay(repos[..i + 1], name) <==> InPlay(repos[..i], name) || InPlayFor(repos[i], name)
  {
    assert repos[..i + 1] == repos[..i] + [repos[i]];
    assert repos[i] in repos[..i + 1];
    assert forall r :: r in repos[..i + 1] <==> r in repos[..i] || r == repos[i];
  }

  /** `knownClusterNames`: every name in play, once. */
  method KnownClusterNames(repos: seq<Repo>) returns (names: seq<string>)
    ensures Distinct(names)
    ensures forall name :: name in names <==> InPlay(repos, name)
  {
    names := [];
    var i := 0;
    while i < |repos|
      invariant 0 <= i <= |repos| && Distinct(names)
      invariant forall name :: name in names <==> InPlay(repos[..i], name)
    {
      names := AddRepo(names, repos[i]);
      InPlayNext(repos, i);
      i := i + 1;
    }
    assert repos[..i] == repos;
  }

  method AddRepo(before: seq<string>, repo: Repo) returns (names: seq<string>)
    requires Distinct(before)
    ensures Distinct(names)
    ensures forall name :: name in names <==> name in before || InPlayFor(repo, name)
  {
    names := Added(before, repo.name);
    var types := WorkloadTypes(repo);
    var k := 0;
    while k < |types|
      invariant 0 <= k <= |types| && Distinct(names)
      invariant forall name :: name in names <==> name in before || name == repo.name || InPlayAs(repo, k, name)
    {
      names := Added(names, ScopedName(repo, types[k]));
      k := k + 1;
    }
  }
}
