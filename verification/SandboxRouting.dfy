/**
 * The routes of a sandbox slot, computed from the personal namespace's ingresses.
 *
 * A host is mapped into the slot when one of its paths leads to a member of the sandbox. What the member does not
 * serve on a mapped `api-` host falls back to the personal services, one generated ingress per source ingress.
 */
module SandboxRouting {
  import opened Basics

  // ---- Slot and host names ----

  predicate Digit(c: char) { '0' <= c <= '9' }

  /** `/^sb[1-9]\d*$/` */
  predicate SandboxSlot(slot: string) {
    && |slot| >= 3 && slot[0] == 's' && slot[1] == 'b' && '1' <= slot[2] <= '9'
    && forall k :: 3 <= k < |slot| ==> Digit(slot[k])
  }

  predicate NameChar(c: char) { 'a' <= c <= 'z' || Digit(c) || c == '-' }

  /** guardSandboxName(): a name may be touched only if it carries the slot as a whole dash-separated part. */
  predicate Guarded(name: string, slot: string) {
    && SandboxSlot(slot) && slot in Split(name, '-')
    && |name| > 0 && name[0] != '-' && forall k :: 0 <= k < |name| ==> NameChar(name[k])
  }

  predicate OccursAt(s: string, pat: string, i: nat) {
    i + |pat| <= |s| && s[i..i + |pat|] == pat
  }

  /** `s.indexOf(pat)` from position `i` on. */
  function IndexFrom(s: string, pat: string, i: nat): (r: Option<nat>)
    ensures r.Some? ==> i <= r.value && OccursAt(s, pat, r.value) && forall j :: i <= j < r.value ==> !OccursAt(s, pat, j)
    ensures r.None? ==> forall j :: i <= j ==> !OccursAt(s, pat, j)
    decreases |s| - i
  {
    if i + |pat| > |s| then None
    else if s[i..i + |pat|] == pat then Some(i)
    else IndexFrom(s, pat, i + 1)
  }

  /** Where the first occurrence of the namespace ends, if the host continues with a dash or a dot there. */
  function NamespaceEnd(host: string, namespace: string): (r: Option<nat>)
    ensures r.Some? ==> |namespace| + 1 <= r.value < |host|
  {
    var index := IndexFrom(host, "-" + namespace, 0);
    if index.None? then None
    else
      var end := index.value + |namespace| + 1;
      if end < |host| && (host[end] == '-' || host[end] == '.') then Some(end) else None
  }

  function SandboxHost(host: string, namespace: string, slot: string): Result<string> {
    if !SandboxSlot(slot) then Err("Invalid sandbox slot")
    else
      var end := NamespaceEnd(host, namespace);
      if end.None? then Err("Host does not contain personal namespace")
      else Ok(host[..end.value] + "-" + slot + host[end.value..])
  }

  /** The number of leading characters that are neither a dash nor a dot. */
  function Run(s: string): (n: nat)
    ensures n <= |s| && (n < |s| ==> s[n] == '-' || s[n] == '.')
    ensures forall k :: 0 <= k < n ==> s[k] != '-' && s[k] != '.'
  {
    if s == [] || s[0] == '-' || s[0] == '.' then 0 else 1 + Run(s[1..])
  }

  /** Reads host and slot back out of a mapped host. */
  function Unmap(mapped: string, namespace: string): Option<(string, string)> {
    var end := NamespaceEnd(mapped, namespace);
    if end.None? then None
    else
      var n := Run(mapped[end.value + 1..]);
      Some((mapped[..end.value] + mapped[end.value + 1 + n..], mapped[end.value + 1..end.value + 1 + n]))
  }

  lemma RunIs(slot: string, rest: string)
    requires SandboxSlot(slot) && |rest| > 0 && (rest[0] == '-' || rest[0] == '.')
    ensures Run(slot + rest) == |slot|
  {
    var s := slot + rest;
    assert forall k :: 0 <= k < |slot| ==> s[k] == slot[k] && s[k] != '-' && s[k] != '.';
    assert s[|slot|] == rest[0];
  }

  /** What lies in a common prefix occurs alike in both texts. */
  lemma OccursInPrefix(a: string, b: string, pat: string, end: nat, i: nat)
    requires end <= |a| && end <= |b| && a[..end] == b[..end] && i + |pat| <= end
    ensures OccursAt(a, pat, i) <==> OccursAt(b, pat, i)
  {
    assert a[i..i + |pat|] == a[..end][i..i + |pat|];
    assert b[i..i + |pat|] == b[..end][i..i + |pat|];
  }

  /** Inserting the slot does not move the first occurrence of the namespace. */
  lemma NamespaceStays(host: string, namespace: string, slot: string)
    requires SandboxHost(host, namespace, slot).Ok?
    ensures NamespaceEnd(SandboxHost(host, namespace, slot).value, namespace) == NamespaceEnd(host, namespace)
  {
    var pat := "-" + namespace;
    var end := NamespaceEnd(host, namespace).value;
    var mapped := SandboxHost(host, namespace, slot).value;
    var index := IndexFrom(host, pat, 0).value;
    assert mapped[..end] == host[..end] && mapped[end] == '-';
    forall j: nat | j <= index ensures OccursAt(mapped, pat, j) <==> OccursAt(host, pat, j) {
      OccursInPrefix(mapped, host, pat, end, j);
    }
    assert IndexFrom(mapped, pat, 0) == Some(index);
  }

  /** The mapping is reversible: host and slot can both be read back. */
  lemma UnmapInvertsMapping(host: string, namespace: string, slot: string)
    requires SandboxHost(host, namespace, slot).Ok?
    ensures Unmap(SandboxHost(host, namespace, slot).value, namespace) == Some((host, slot))
  {
    var end := NamespaceEnd(host, namespace).value;
    NamespaceStays(host, namespace, slot);
    InsertedIsRead(host, slot, end);
  }

  /** A slot inserted before a dash or dot is found again, and cutting it out gives the host back. */
  lemma InsertedIsRead(host: string, slot: string, end: nat)
    requires SandboxSlot(slot) && end < |host| && (host[end] == '-' || host[end] == '.')
    ensures var mapped := host[..end] + "-" + slot + host[end..];
            && Run(mapped[end + 1..]) == |slot| && mapped[end + 1..end + 1 + |slot|] == slot
            && mapped[..end] + mapped[end + 1 + |slot|..] == host
  {
    var mapped := host[..end] + "-" + slot + host[end..];
    assert mapped[end + 1..] == slot + host[end..];
    RunIs(slot, host[end..]);
    assert mapped[..end] == host[..end] && mapped[end + 1 + |slot|..] == host[end..];
    assert host[..end] + host[end..] == host;
  }

  /** No two hosts merge, not even across slots. */
  lemma MappedHostsAreDistinct(h1: string, slot1: string, h2: string, slot2: string, namespace: string)
    requires SandboxHost(h1, namespace, slot1).Ok?
    requires SandboxHost(h1, namespace, slot1) == SandboxHost(h2, namespace, slot2)
    ensures h1 == h2 && slot1 == slot2
  {
    UnmapInvertsMapping(h1, namespace, slot1);
    UnmapInvertsMapping(h2, namespace, slot2);
  }

  // ---- Source and generated ingresses ----

  /** `rest` stands for what is copied unread: path type and port. */
  datatype Path = Path(path: Option<string>, service: Option<string>, rest: string)

  /** A rule without `http` has no paths. */
  datatype Rule = Rule(host: Option<string>, paths: seq<Path>)

  datatype Source = Source(annotations: map<string, string>, ingressClass: Option<string>, rules: seq<Rule>)

  datatype Spec = Spec(ingressClass: string, tlsHosts: seq<string>, rules: seq<Rule>)

  datatype Manifest = Manifest(name: string, annotations: map<string, string>, spec: Spec)

  /** The Maps hosts (with its insertion order) and memberPaths. */
  datatype Maps = Maps(hosts: map<string, string>, order: seq<string>, memberPaths: map<string, set<string>>)

  datatype Routing = Routing(maps: Maps, tls: Manifest, fallback: seq<Manifest>)

  function ServiceOf(p: Path): string { if p.service.Some? then p.service.value else "" }

  function PathOf(p: Path): string { if p.path.Some? then p.path.value else "/" }

  /** One path of one rule: what the source ingresses say, flattened and in order. */
  datatype Route = Route(host: Option<string>, path: Path)

  function RuleRoutes(host: Option<string>, paths: seq<Path>): seq<Route> {
    if paths == [] then [] else RuleRoutes(host, paths[..|paths| - 1]) + [Route(host, paths[|paths| - 1])]
  }

  function RulesRoutes(rules: seq<Rule>): seq<Route> {
    if rules == [] then []
    else RulesRoutes(rules[..|rules| - 1]) + RuleRoutes(rules[|rules| - 1].host, rules[|rules| - 1].paths)
  }

  function Routes(sources: seq<Source>): seq<Route> {
    if sources == [] then [] else Routes(sources[..|sources| - 1]) + RulesRoutes(sources[|sources| - 1].rules)
  }

  /** A route of a named host to a member of the sandbox. */
  predicate MemberRoute(r: Route, services: map<string, string>) {
    r.host.Some? && r.host.value != "" && ServiceOf(r.path) in services
  }

  /** Some member serves `host`. */
  predicate Serves(routes: seq<Route>, services: map<string, string>, host: string) {
    exists k :: 0 <= k < |routes| && MemberRoute(routes[k], services) && routes[k].host.value == host
  }

  /** Some member serves `path` on `host`. */
  predicate ServesPath(routes: seq<Route>, services: map<string, string>, host: string, path: string) {
    exists k :: 0 <= k < |routes| && MemberRoute(routes[k], services) && routes[k].host.value == host && PathOf(routes[k].path) == path
  }

  // ---- The two Maps, filled by nested loops ----

  /** The Maps' entries of host `h` after the routes `done`: set exactly if the host is served, mapped into the
      slot, and with exactly its served paths. */
  ghost predicate FilledAt(m: Maps, done: seq<Route>, services: map<string, string>, namespace: string, slot: string, h: string) {
    && (h in m.hosts <==> Serves(done, services, h))
    && (h in m.order <==> h in m.hosts)
    && (h in m.memberPaths <==> h in m.hosts)
    && (h in m.hosts ==>
          && SandboxHost(h, namespace, slot) == Ok(m.hosts[h])
          && forall p :: p in m.memberPaths[h] <==> ServesPath(done, services, h, p))
  }

  ghost predicate Filled(m: Maps, done: seq<Route>, services: map<string, string>, namespace: string, slot: string) {
    && (forall h :: FilledAt(m, done, services, namespace, slot, h))
    && (forall i, j :: 0 <= i < j < |m.order| ==> m.order[i] != m.order[j])
  }

  lemma ServesMore(done: seq<Route>, r: Route, services: map<string, string>, h: string, p: string)
    ensures Serves(done + [r], services, h) <==> Serves(done, services, h) || (MemberRoute(r, services) && r.host.value == h)
    ensures ServesPath(done + [r], services, h, p)
      <==> ServesPath(done, services, h, p) || (MemberRoute(r, services) && r.host.value == h && PathOf(r.path) == p)
  {
    var all := done + [r];
    assert all[|done|] == r;
    assert forall k :: 0 <= k < |done| ==> all[k] == done[k];
  }

  /** The Maps after a path of a member. */
  function Enter(m: Maps, h: string, mapped: string, p: string): Maps {
    Maps(m.hosts[h := mapped],
         if h in m.hosts then m.order else m.order + [h],
         m.memberPaths[h := (if h in m.memberPaths then m.memberPaths[h] else {}) + {p}])
  }

  lemma EnterFills(m: Maps, done: seq<Route>, r: Route, services: map<string, string>, namespace: string, slot: string, mapped: string, h: string)
    requires FilledAt(m, done, services, namespace, slot, h)
    requires MemberRoute(r, services) && SandboxHost(r.host.value, namespace, slot) == Ok(mapped)
    ensures FilledAt(Enter(m, r.host.value, mapped, PathOf(r.path)), done + [r], services, namespace, slot, h)
  {
    forall p { ServesMore(done, r, services, h, p); }
    ServesMore(done, r, services, h, "");
    var n := Enter(m, r.host.value, mapped, PathOf(r.path));
    if h !in m.hosts {
      forall p ensures !ServesPath(done, services, h, p) { }
    }
  }

  lemma SkipFills(m: Maps, done: seq<Route>, r: Route, services: map<string, string>, namespace: string, slot: string, h: string)
    requires FilledAt(m, done, services, namespace, slot, h) && !MemberRoute(r, services)
    ensures FilledAt(m, done + [r], services, namespace, slot, h)
  {
    forall p { ServesMore(done, r, services, h, p); }
    ServesMore(done, r, services, h, "");
  }

  /** Every served host of `routes` can be mapped into the slot. */
  ghost predicate Mappable(routes: seq<Route>, services: map<string, string>, namespace: string, slot: string) {
    forall r :: r in routes && MemberRoute(r, services) ==> SandboxHost(r.host.value, namespace, slot).Ok?
  }

  /** The innermost loop, over the paths of one rule, after the routes `done`. */
  method NoteRule(m: Maps, rule: Rule, services: map<string, string>, namespace: string, slot: string, ghost done: seq<Route>)
    returns (ok: bool, n: Maps)
    requires Filled(m, done, services, namespace, slot)
    ensures ok <==> Mappable(RuleRoutes(rule.host, rule.paths), services, namespace, slot)
    ensures ok ==> Filled(n, done + RuleRoutes(rule.host, rule.paths), services, namespace, slot)
  {
    n := m;
    assert done + RuleRoutes(rule.host, rule.paths[..0]) == done;
    for k := 0 to |rule.paths|
      invariant Mappable(RuleRoutes(rule.host, rule.paths[..k]), services, namespace, slot)
      invariant Filled(n, done + RuleRoutes(rule.host, rule.paths[..k]), services, namespace, slot)
    {
      var path := rule.paths[k];
      ghost var before := done + RuleRoutes(rule.host, rule.paths[..k]);
      ghost var r := Route(rule.host, path);
      assert rule.paths[..k + 1][..k] == rule.paths[..k];
      assert done + RuleRoutes(rule.host, rule.paths[..k + 1]) == before + [r];
      if rule.host.Some? && rule.host.value != "" && ServiceOf(path) in services {
        var mapped := SandboxHost(rule.host.value, namespace, slot);
        if mapped.Err? {
          InRuleRoutes(rule.host, rule.paths, k);
          return false, n;
        }
        forall h { EnterFills(n, before, r, services, namespace, slot, mapped.value, h); }
        assert FilledAt(n, before, services, namespace, slot, rule.host.value);
        n := Enter(n, rule.host.value, mapped.value, PathOf(path));
      } else {
        forall h { SkipFills(n, before, r, services, namespace, slot, h); }
      }
    }
    assert rule.paths[..|rule.paths|] == rule.paths;
    ok := true;
  }

  /** The middle loop, over the rules of one ingress. */
  method NoteRules(m: Maps, rules: seq<Rule>, services: map<string, string>, namespace: string, slot: string, ghost done: seq<Route>)
    returns (ok: bool, n: Maps)
    requires Filled(m, done, services, namespace, slot)
    ensures ok <==> Mappable(RulesRoutes(rules), services, namespace, slot)
    ensures ok ==> Filled(n, done + RulesRoutes(rules), services, namespace, slot)
  {
    n := m;
    assert done + RulesRoutes(rules[..0]) == done;
    for j := 0 to |rules|
      invariant Mappable(RulesRoutes(rules[..j]), services, namespace, slot)
      invariant Filled(n, done + RulesRoutes(rules[..j]), services, namespace, slot)
    {
      ghost var before := done + RulesRoutes(rules[..j]);
      assert rules[..j + 1][..j] == rules[..j];
      assert done + RulesRoutes(rules[..j + 1]) == before + RuleRoutes(rules[j].host, rules[j].paths);
      ok, n := NoteRule(n, rules[j], services, namespace, slot, before);
      if !ok {
        RulesRoutesIn(rules, j);
        return false, n;
      }
    }
    assert rules[..|rules|] == rules;
    ok := true;
  }

  /** The first half of sandboxRouting(). It fails exactly when a served host cannot be mapped. */
  method Collect(sources: seq<Source>, namespace: string, slot: string, services: map<string, string>) returns (ok: bool, m: Maps)
    ensures ok <==> Mappable(Routes(sources), services, namespace, slot)
    ensures ok ==> Filled(m, Routes(sources), services, namespace, slot)
  {
    m := Maps(map[], [], map[]);
    for i := 0 to |sources|
      invariant Mappable(Routes(sources[..i]), services, namespace, slot)
      invariant Filled(m, Routes(sources[..i]), services, namespace, slot)
    {
      assert sources[..i + 1][..i] == sources[..i];
      ok, m := NoteRules(m, sources[i].rules, services, namespace, slot, Routes(sources[..i]));
      if !ok {
        RoutesIn(sources, i);
        return false, m;
      }
    }
    assert sources[..|sources|] == sources;
    ok := true;
  }

  lemma {:induction false} InRuleRoutes(host: Option<string>, paths: seq<Path>, k: nat)
    requires k < |paths|
    ensures Route(host, paths[k]) in RuleRoutes(host, paths)
    decreases |paths|
  {
    if k < |paths| - 1 { InRuleRoutes(host, paths[..|paths| - 1], k); }
  }

  lemma {:induction false} RulesRoutesIn(rules: seq<Rule>, j: nat)
    requires j < |rules|
    ensures forall r :: r in RuleRoutes(rules[j].host, rules[j].paths) ==> r in RulesRoutes(rules)
    decreases |rules|
  {
    if j < |rules| - 1 { RulesRoutesIn(rules[..|rules| - 1], j); }
  }

  lemma {:induction false} RoutesIn(sources: seq<Source>, i: nat)
    requires i < |sources|
    ensures forall r :: r in RulesRoutes(sources[i].rules) ==> r in Routes(sources)
    decreases |sources|
  {
    if i < |sources| - 1 { RoutesIn(sources[..|sources| - 1], i); }
  }

  // ---- Resource names ----

  function DigitChar(d: nat): char
    requires d < 10
  {
    '0' + d as char
  }

  function Decimal(n: nat): (s: string)
    ensures |s| >= 1 && forall k :: 0 <= k < |s| ==> Digit(s[k])
  {
    if n < 10 then [DigitChar(n)] else Decimal(n / 10) + [DigitChar(n % 10)]
  }

  function Number(s: string): nat
    requires forall k :: 0 <= k < |s| ==> Digit(s[k])
  {
    if s == [] then 0 else assert Digit(s[|s| - 1]); 10 * Number(s[..|s| - 1]) + (s[|s| - 1] as int - '0' as int)
  }

  lemma {:induction false} NumberOfDecimal(n: nat)
    ensures Number(Decimal(n)) == n
  {
    if n >= 10 {
      NumberOfDecimal(n / 10);
      assert Decimal(n)[..|Decimal(n)| - 1] == Decimal(n / 10);
    }
  }

  function TlsName(slot: string): string { "devdock-" + slot + "-tls" }

  function RoutePrefix(slot: string): string { "devdock-" + slot + "-route-" }

  function RouteName(slot: string, index: nat): string { RoutePrefix(slot) + Decimal(index) }

  lemma RouteNamesDiffer(slot: string, i: nat, j: nat)
    requires RouteName(slot, i) == RouteName(slot, j)
    ensures i == j
  {
    assert RouteName(slot, i)[|RoutePrefix(slot)|..] == Decimal(i);
    assert RouteName(slot, j)[|RoutePrefix(slot)|..] == Decimal(j);
    NumberOfDecimal(i);
    NumberOfDecimal(j);
  }

  /** A text between two dashes that contains none is a part of its own. */
  lemma DashedPart(head: string, part: string, rest: string)
    requires Free(part, '-')
    ensures part in Split(head + ['-'] + (part + ['-'] + rest), '-')
  {
    SplitAt(head, '-', part + ['-'] + rest);
    SplitAt(part, '-', rest);
    SplitFree(part, '-');
    var before := Split(head, '-');
    assert (before + ([part] + Split(rest, '-')))[|before|] == part;
  }

  /** A name that carries the slot between two dashes passes the guard, whatever follows. */
  lemma SlotNameIsGuarded(slot: string, rest: string)
    requires SandboxSlot(slot) && forall k :: 0 <= k < |rest| ==> NameChar(rest[k])
    ensures Guarded("devdock-" + slot + "-" + rest, slot)
  {
    assert Free(slot, '-');
    DashedPart("devdock", slot, rest);
    assert "devdock-" + slot + "-" + rest == "devdock" + ['-'] + (slot + ['-'] + rest);
    SlotNameChars(slot, rest);
  }

  lemma SlotNameChars(slot: string, rest: string)
    requires SandboxSlot(slot) && NameText(rest)
    ensures NameText("devdock-" + slot + "-" + rest)
  {
    NameChars("-", rest);
    NameChars(slot, "-" + rest);
    NameChars("devdock-", slot + ("-" + rest));
    assert "devdock-" + slot + "-" + rest == "devdock-" + (slot + ("-" + rest));
  }

  predicate NameText(s: string) { forall k :: 0 <= k < |s| ==> NameChar(s[k]) }

  lemma NameChars(a: string, b: string)
    ensures NameText(a) && NameText(b) ==> NameText(a + b)
  {
  }

  lemma GeneratedNamesAreGuarded(slot: string, index: nat)
    requires SandboxSlot(slot)
    ensures Guarded(TlsName(slot), slot) && Guarded(RouteName(slot, index), slot)
  {
    SlotNameIsGuarded(slot, "tls");
    assert TlsName(slot) == "devdock-" + slot + "-" + "tls";
    SlotNameIsGuarded(slot, "route-" + Decimal(index));
    assert RouteName(slot, index) == "devdock-" + slot + "-" + ("route-" + Decimal(index));
  }

  // ---- The fallback ingresses ----

  /** `filter`: paths that lead elsewhere and that no member serves on this host. */
  function KeptPaths(paths: seq<Path>, host: string, m: Maps, services: map<string, string>): seq<Path> {
    if paths == [] then []
    else
      var p := paths[|paths| - 1];
      KeptPaths(paths[..|paths| - 1], host, m, services)
        + if ServiceOf(p) !in services && !(host in m.memberPaths && PathOf(p) in m.memberPaths[host]) then [p] else []
  }

  function FallbackRule(rule: Rule, m: Maps, services: map<string, string>): seq<Rule> {
    if rule.host.None? || !StartsWith(rule.host.value, "api-") || rule.host.value !in m.hosts then []
    else
      var paths := KeptPaths(rule.paths, rule.host.value, m, services);
      if paths == [] then [] else [Rule(Some(m.hosts[rule.host.value]), paths)]
  }

  function FallbackRules(rules: seq<Rule>, m: Maps, services: map<string, string>): seq<Rule> {
    if rules == [] then []
    else FallbackRules(rules[..|rules| - 1], m, services) + FallbackRule(rules[|rules| - 1], m, services)
  }

  function KeptAnnotations(annotations: map<string, string>): map<string, string> {
    (map k | k in annotations && (StartsWith(k, "nginx.org/") || StartsWith(k, "nginx.ingress.kubernetes.io/")) :: annotations[k])
      ["nginx.org/mergeable-ingress-type" := "minion"]
  }

  function FallbackOf(source: Source, index: nat, slot: string, m: Maps, services: map<string, string>): seq<Manifest> {
    var rules := FallbackRules(source.rules, m, services);
    if rules == [] then []
    else [Manifest(RouteName(slot, index), KeptAnnotations(source.annotations),
                   Spec(if source.ingressClass.Some? then source.ingressClass.value else "nginx", [], rules))]
  }

  /** `flatMap` with the index of each source ingress. */
  function Fallback(sources: seq<Source>, slot: string, m: Maps, services: map<string, string>): seq<Manifest> {
    if sources == [] then []
    else Fallback(sources[..|sources| - 1], slot, m, services) + FallbackOf(sources[|sources| - 1], |sources| - 1, slot, m, services)
  }

  /** `[...hosts.values()]`, in insertion order. */
  function MappedHosts(m: Maps): seq<string> {
    seq(|m.order|, k requires 0 <= k < |m.order| => if m.order[k] in m.hosts then m.hosts[m.order[k]] else "")
  }

  function Tls(slot: string, hosts: seq<string>): Manifest {
    Manifest(TlsName(slot),
             map["cert-manager.io/cluster-issuer" := "lets-encrypt-issuer", "nginx.org/mergeable-ingress-type" := "master"],
             Spec("nginx", hosts, seq(|hosts|, k requires 0 <= k < |hosts| => Rule(Some(hosts[k]), []))))
  }

  /** sandboxRouting(). It throws exactly for an invalid slot or a served host outside the namespace. */
  method Compute(sources: seq<Source>, namespace: string, slot: string, services: map<string, string>) returns (r: Result<Routing>)
    ensures r.Ok? <==> SandboxSlot(slot) && Mappable(Routes(sources), services, namespace, slot)
    ensures r.Ok? ==>
              && Filled(r.value.maps, Routes(sources), services, namespace, slot)
              && r.value.tls == Tls(slot, MappedHosts(r.value.maps))
              && r.value.fallback == Fallback(sources, slot, r.value.maps, services)
  {
    var ok, m := Collect(sources, namespace, slot, services);
    if !ok { return Err("Host does not contain personal namespace"); }
    if !Guarded(TlsName(slot), slot) {
      if SandboxSlot(slot) { GeneratedNamesAreGuarded(slot, 0); }
      return Err("Unsafe sandbox resource name");
    }
    r := Ok(Routing(m, Tls(slot, MappedHosts(m)), Fallback(sources, slot, m, services)));
  }

  // ---- Conservation of routes ----

  /** What the generated ingresses route, flattened and in order. */
  function ManifestRoutes(manifests: seq<Manifest>): seq<Route> {
    if manifests == [] then []
    else ManifestRoutes(manifests[..|manifests| - 1]) + RulesRoutes(manifests[|manifests| - 1].spec.rules)
  }

  /** Whether a source route falls back, judged by the sources alone: it is on an `api-` host that some member
      serves, leads to no member, and no member serves its path there. */
  predicate FallsBack(r: Route, all: seq<Route>, services: map<string, string>) {
    && r.host.Some? && StartsWith(r.host.value, "api-") && Serves(all, services, r.host.value)
    && ServiceOf(r.path) !in services && !ServesPath(all, services, r.host.value, PathOf(r.path))
  }

  /** The source routes that fall back, each on its mapped host. */
  function Expected(routes: seq<Route>, all: seq<Route>, services: map<string, string>, namespace: string, slot: string): seq<Route> {
    if routes == [] then []
    else
      var r := routes[|routes| - 1];
      Expected(routes[..|routes| - 1], all, services, namespace, slot)
        + if FallsBack(r, all, services) && SandboxHost(r.host.value, namespace, slot).Ok?
          then [Route(Some(SandboxHost(r.host.value, namespace, slot).value), r.path)] else []
  }

  lemma {:induction false} ExpectedConcat(a: seq<Route>, b: seq<Route>, all: seq<Route>, services: map<string, string>, namespace: string, slot: string)
    ensures Expected(a + b, all, services, namespace, slot)
      == Expected(a, all, services, namespace, slot) + Expected(b, all, services, namespace, slot)
  {
    if b == [] {
      assert a + b == a;
    } else {
      ExpectedConcat(a, b[..|b| - 1], all, services, namespace, slot);
      assert (a + b)[..|a + b| - 1] == a + b[..|b| - 1];
    }
  }

  /** Paths of one rule on a mapped `api-` host. */
  lemma {:induction false} KeptPathsAreExpected(host: string, paths: seq<Path>, m: Maps, all: seq<Route>, services: map<string, string>, namespace: string, slot: string)
    requires FilledAt(m, all, services, namespace, slot, host) && StartsWith(host, "api-") && host in m.hosts
    ensures RuleRoutes(Some(m.hosts[host]), KeptPaths(paths, host, m, services))
      == Expected(RuleRoutes(Some(host), paths), all, services, namespace, slot)
  {
    if paths != [] {
      var init, p := paths[..|paths| - 1], paths[|paths| - 1];
      KeptPathsAreExpected(host, init, m, all, services, namespace, slot);
      var kept := KeptPaths(init, host, m, services);
      assert (kept + [p])[..|kept|] == kept;
      assert kept + [] == kept;
      var routes := RuleRoutes(Some(host), init);
      assert (routes + [Route(Some(host), p)])[..|routes|] == routes;
    }
  }

  /** Paths of a rule without a mapped `api-` host: nothing is expected of them. */
  lemma {:induction false} NothingExpected(host: Option<string>, paths: seq<Path>, m: Maps, all: seq<Route>, services: map<string, string>, namespace: string, slot: string)
    requires host.Some? ==> FilledAt(m, all, services, namespace, slot, host.value)
    requires host.None? || !StartsWith(host.value, "api-") || host.value !in m.hosts
    ensures Expected(RuleRoutes(host, paths), all, services, namespace, slot) == []
  {
    if paths != [] {
      var init := paths[..|paths| - 1];
      NothingExpected(host, init, m, all, services, namespace, slot);
      var routes := RuleRoutes(host, init);
      assert (routes + [Route(host, paths[|paths| - 1])])[..|routes|] == routes;
    }
  }

  lemma RuleConserves(rule: Rule, m: Maps, all: seq<Route>, services: map<string, string>, namespace: string, slot: string)
    requires Filled(m, all, services, namespace, slot)
    ensures RulesRoutes(FallbackRule(rule, m, services)) == Expected(RuleRoutes(rule.host, rule.paths), all, services, namespace, slot)
  {
    if rule.host.Some? { assert FilledAt(m, all, services, namespace, slot, rule.host.value); }
    if rule.host.None? || !StartsWith(rule.host.value, "api-") || rule.host.value !in m.hosts {
      NothingExpected(rule.host, rule.paths, m, all, services, namespace, slot);
    } else {
      KeptPathsAreExpected(rule.host.value, rule.paths, m, all, services, namespace, slot);
    }
  }

  lemma RulesRoutesConcat(a: seq<Rule>, b: seq<Rule>)
    requires |b| <= 1
    ensures RulesRoutes(a + b) == RulesRoutes(a) + RulesRoutes(b)
  {
    if b == [] { assert a + b == a; } else { assert (a + b)[..|a|] == a && b[..0] == []; }
  }

  lemma {:induction false} RulesConserve(rules: seq<Rule>, m: Maps, all: seq<Route>, services: map<string, string>, namespace: string, slot: string)
    requires Filled(m, all, services, namespace, slot)
    ensures RulesRoutes(FallbackRules(rules, m, services)) == Expected(RulesRoutes(rules), all, services, namespace, slot)
  {
    if rules != [] {
      var init, last := rules[..|rules| - 1], rules[|rules| - 1];
      RulesConserve(init, m, all, services, namespace, slot);
      RuleConserves(last, m, all, services, namespace, slot);
      RulesRoutesConcat(FallbackRules(init, m, services), FallbackRule(last, m, services));
      ExpectedConcat(RulesRoutes(init), RuleRoutes(last.host, last.paths), all, services, namespace, slot);
    }
  }

  lemma ManifestRoutesConcat(a: seq<Manifest>, b: seq<Manifest>)
    requires |b| <= 1
    ensures ManifestRoutes(a + b) == ManifestRoutes(a) + ManifestRoutes(b)
  {
    if b == [] { assert a + b == a; } else { assert (a + b)[..|a|] == a && b[..0] == []; }
  }

  /** The fallback ingresses route exactly the source routes that fall back, in order and one for one. */
  lemma {:induction false} RoutesAreConserved(sources: seq<Source>, m: Maps, all: seq<Route>, services: map<string, string>, namespace: string, slot: string)
    requires Filled(m, all, services, namespace, slot)
    ensures ManifestRoutes(Fallback(sources, slot, m, services)) == Expected(Routes(sources), all, services, namespace, slot)
  {
    if sources != [] {
      var init, last := sources[..|sources| - 1], sources[|sources| - 1];
      RoutesAreConserved(init, m, all, services, namespace, slot);
      RulesConserve(last.rules, m, all, services, namespace, slot);
      ManifestRoutesConcat(Fallback(init, slot, m, services), FallbackOf(last, |init|, slot, m, services));
      ExpectedConcat(Routes(init), RulesRoutes(last.rules), all, services, namespace, slot);
    }
  }

  /** Each fallback ingress has a name of its own, in the slot's range, that passes the guard. */
  lemma {:induction false} FallbackNames(sources: seq<Source>, slot: string, m: Maps, services: map<string, string>) returns (index: seq<nat>)
    ensures
      var f := Fallback(sources, slot, m, services);
      && |index| == |f|
      && (forall k :: 0 <= k < |f| ==> f[k].name == RouteName(slot, index[k]) && index[k] < |sources|)
      && (forall j, k :: 0 <= j < k < |f| ==> index[j] < index[k])
  {
    index := [];
    if sources != [] {
      index := FallbackNames(sources[..|sources| - 1], slot, m, services);
      if FallbackOf(sources[|sources| - 1], |sources| - 1, slot, m, services) != [] {
        index := index + [|sources| - 1];
      }
    }
  }
}
