/**
 * Bringing a slot's generated ingresses up to date.
 *
 * Every generated ingress carries a hash of its own content. Applying a routing leaves ingresses with the wanted
 * hash alone, deletes stale and changed routes in one call, and then applies the changed ones with up to eight
 * concurrent workers. The promise is that of the simple form: delete all the slot's routes, then apply them all.
 */
module RouteApply {
  import opened Basics
  import opened SandboxRouting

  const ROUTE_HASH := "devdock.dev/route-hash"
  const ROUTE_APPLY_CONCURRENCY := 8

  /** The ingresses of the namespace, by name. */
  type Ingresses = map<string, Manifest>

  /** Content without the hash annotation. */
  function Content(m: Manifest): Manifest {
    m.(annotations := m.annotations - {ROUTE_HASH})
  }

  function RouteHash(hash: Manifest -> string, m: Manifest): string { hash(Content(m)) }

  function WithRouteHash(hash: Manifest -> string, m: Manifest): Manifest {
    m.(annotations := m.annotations[ROUTE_HASH := RouteHash(hash, m)])
  }

  /** The digest is taken to have no collisions. */
  ghost predicate Injective(hash: Manifest -> string) {
    forall a, b :: hash(a) == hash(b) ==> a == b
  }

  /** Writing the hash into the ingress does not change the hash. */
  lemma HashIgnoresItself(hash: Manifest -> string, m: Manifest)
    ensures RouteHash(hash, WithRouteHash(hash, m)) == RouteHash(hash, m)
    ensures WithRouteHash(hash, WithRouteHash(hash, m)) == WithRouteHash(hash, m)
  {
    assert Content(WithRouteHash(hash, m)) == Content(m);
  }

  function HashOf(c: Ingresses, name: string): Option<string> {
    if name in c && ROUTE_HASH in c[name].annotations then Some(c[name].annotations[ROUTE_HASH]) else None
  }

  /** A hash annotation, where there is one, is the hash of the ingress that carries it. */
  predicate Hashed(hash: Manifest -> string, m: Manifest) {
    ROUTE_HASH in m.annotations ==> m.annotations[ROUTE_HASH] == RouteHash(hash, m)
  }

  /** Ingresses are filed under their names, and those that applyRouting() may touch are hashed. */
  ghost predicate WellHashed(hash: Manifest -> string, c: Ingresses, slot: string) {
    forall n :: n in c ==> c[n].name == n && (StartsWith(n, RoutePrefix(slot)) || n == TlsName(slot) ==> Hashed(hash, c[n]))
  }

  // ---- The simple form ----

  function WithoutRoutes(c: Ingresses, slot: string): Ingresses {
    map n | n in c && !StartsWith(n, RoutePrefix(slot)) :: c[n]
  }

  function ApplyAll(c: Ingresses, desired: seq<Manifest>): Ingresses {
    if desired == [] then c
    else
      var last := desired[|desired| - 1];
      ApplyAll(c, desired[..|desired| - 1])[last.name := last]
  }

  /** Delete all the slot's routes, then apply the desired set. */
  function Replace(c: Ingresses, desired: seq<Manifest>, slot: string): Ingresses {
    ApplyAll(WithoutRoutes(c, slot), desired)
  }

  predicate DistinctNames(ms: seq<Manifest>) {
    forall i, j :: 0 <= i < j < |ms| ==> ms[i].name != ms[j].name
  }

  /** Applied in any order, ingresses of distinct names end up as desired and change nothing else. */
  lemma {:induction false} ApplyAllIs(c: Ingresses, desired: seq<Manifest>)
    requires DistinctNames(desired)
    ensures forall k :: 0 <= k < |desired| ==> desired[k].name in ApplyAll(c, desired) && ApplyAll(c, desired)[desired[k].name] == desired[k]
    ensures forall n :: (forall k :: 0 <= k < |desired| ==> desired[k].name != n) ==>
              (n in ApplyAll(c, desired) <==> n in c) && (n in c ==> ApplyAll(c, desired)[n] == c[n])
  {
    if desired != [] {
      ApplyAllIs(c, desired[..|desired| - 1]);
      assert forall k :: 0 <= k < |desired| - 1 ==> desired[..|desired| - 1][k] == desired[k];
    }
  }

  // ---- What has to change ----

  /** The desired ingresses of a routing: none when no host is mapped. */
  function Desired(hash: Manifest -> string, r: Routing): seq<Manifest> {
    if |r.maps.hosts| == 0 then []
    else var all := [r.tls] + r.fallback; seq(|all|, k requires 0 <= k < |all| => WithRouteHash(hash, all[k]))
  }

  /** `filter`: desired ingresses whose hash is not the one in the cluster. */
  function Changed(hash: Manifest -> string, c: Ingresses, desired: seq<Manifest>): seq<Manifest> {
    if desired == [] then []
    else
      var last := desired[|desired| - 1];
      Changed(hash, c, desired[..|desired| - 1]) + if HashOf(c, last.name) != Some(RouteHash(hash, last)) then [last] else []
  }

  function Names(ms: seq<Manifest>): set<string> { set m | m in ms :: m.name }

  function StaleNames(c: Ingresses, desired: seq<Manifest>, changed: seq<Manifest>, slot: string): set<string> {
    set n | n in c && StartsWith(n, RoutePrefix(slot)) && (n !in Names(desired) || n in Names(changed))
  }

  lemma {:induction false} ChangedIs(hash: Manifest -> string, c: Ingresses, desired: seq<Manifest>)
    ensures forall d :: d in Changed(hash, c, desired) <==> d in desired && HashOf(c, d.name) != Some(RouteHash(hash, d))
    ensures DistinctNames(desired) ==> DistinctNames(Changed(hash, c, desired))
  {
    if desired != [] {
      var init, last := desired[..|desired| - 1], desired[|desired| - 1];
      ChangedIs(hash, c, init);
      assert forall d :: d in desired <==> d in init || d == last;
      if DistinctNames(desired) {
        forall k | 0 <= k < |Changed(hash, c, init)| ensures Changed(hash, c, init)[k].name != last.name {
          assert Changed(hash, c, init)[k] in init;
        }
      }
    }
  }

  /** The slot's generated ingresses: own names, hashed. */
  ghost predicate SlotManifests(hash: Manifest -> string, desired: seq<Manifest>, slot: string) {
    && DistinctNames(desired)
    && forall d :: d in desired ==>
         && (StartsWith(d.name, RoutePrefix(slot)) || d.name == TlsName(slot))
         && ROUTE_HASH in d.annotations && Hashed(hash, d)
  }

  /** An ingress that carries the wanted hash is the wanted ingress. */
  lemma UnchangedIsDesired(hash: Manifest -> string, c: Ingresses, d: Manifest, slot: string)
    requires Injective(hash) && WellHashed(hash, c, slot)
    requires StartsWith(d.name, RoutePrefix(slot)) || d.name == TlsName(slot)
    requires ROUTE_HASH in d.annotations && Hashed(hash, d)
    requires HashOf(c, d.name) == Some(RouteHash(hash, d))
    ensures d.name in c && c[d.name] == d
  {
    var m := c[d.name];
    assert Content(m) == Content(d);
    assert m.annotations == Content(m).annotations[ROUTE_HASH := m.annotations[ROUTE_HASH]];
    assert d.annotations == Content(d).annotations[ROUTE_HASH := d.annotations[ROUTE_HASH]];
    assert m == Content(m).(annotations := m.annotations);
    assert d == Content(d).(annotations := d.annotations);
  }

  lemma {:induction false} NamedIs(ms: seq<Manifest>, n: string) returns (k: nat)
    requires n in Names(ms)
    ensures k < |ms| && ms[k].name == n
  {
    var m :| m in ms && m.name == n;
    k :| k < |ms| && ms[k] == m;
  }

  /** ApplyAll() at one name. */
  lemma AppliedAt(c: Ingresses, desired: seq<Manifest>, n: string)
    requires DistinctNames(desired)
    ensures forall d :: d in desired && d.name == n ==> n in ApplyAll(c, desired) && ApplyAll(c, desired)[n] == d
    ensures n !in Names(desired) ==> (n in ApplyAll(c, desired) <==> n in c) && (n in c ==> ApplyAll(c, desired)[n] == c[n])
  {
    ApplyAllIs(c, desired);
    if n !in Names(desired) {
      assert forall k :: 0 <= k < |desired| ==> desired[k] in desired;
    }
  }

  lemma IncrementalAt(hash: Manifest -> string, c: Ingresses, desired: seq<Manifest>, slot: string, n: string)
    requires Injective(hash) && WellHashed(hash, c, slot) && SlotManifests(hash, desired, slot)
    ensures
      var changed := Changed(hash, c, desired);
      var l, r := ApplyAll(c - StaleNames(c, desired, changed, slot), changed), Replace(c, desired, slot);
      (n in l <==> n in r) && (n in l ==> l[n] == r[n])
  {
    var changed := Changed(hash, c, desired);
    ChangedIs(hash, c, desired);
    AppliedAt(c - StaleNames(c, desired, changed, slot), changed, n);
    AppliedAt(WithoutRoutes(c, slot), desired, n);
    if n in Names(desired) {
      var k := NamedIs(desired, n);
      var d := desired[k];
      if d !in changed {
        UnchangedIsDesired(hash, c, d, slot);
        assert n !in Names(changed);
      }
    }
  }

  /** Deleting what is stale and applying what has changed is the same as replacing everything. */
  lemma IncrementalIsReplace(hash: Manifest -> string, c: Ingresses, desired: seq<Manifest>, slot: string)
    requires Injective(hash) && WellHashed(hash, c, slot) && SlotManifests(hash, desired, slot)
    ensures
      var changed := Changed(hash, c, desired);
      ApplyAll(c - StaleNames(c, desired, changed, slot), changed) == Replace(c, desired, slot)
  {
    forall n { IncrementalAt(hash, c, desired, slot, n); }
  }

  /** A call writes nothing exactly when the cluster already is as desired; in particular after a success. */
  lemma WritesNothingIffReplaced(hash: Manifest -> string, c: Ingresses, desired: seq<Manifest>, slot: string)
    requires Injective(hash) && WellHashed(hash, c, slot) && SlotManifests(hash, desired, slot)
    ensures
      var changed := Changed(hash, c, desired);
      (changed == [] && StaleNames(c, desired, changed, slot) == {}) <==> Replace(c, desired, slot) == c
  {
    var changed := Changed(hash, c, desired);
    assert |changed| > 0 ==> changed[0] in changed;
    var stale := StaleNames(c, desired, changed, slot);
    ChangedIs(hash, c, desired);
    IncrementalIsReplace(hash, c, desired, slot);
    if changed == [] && stale == {} {
      assert c - stale == c;
    }
    if Replace(c, desired, slot) == c {
      forall d | d in desired ensures HashOf(c, d.name) == Some(RouteHash(hash, d)) {
        AppliedAt(WithoutRoutes(c, slot), desired, d.name);
      }
      forall n | n in c && StartsWith(n, RoutePrefix(slot)) ensures n in Names(desired) {
        AppliedAt(WithoutRoutes(c, slot), desired, n);
      }
    }
  }

  /** Replacing twice is replacing once, so a second call after a success writes nothing. */
  lemma ReplaceIsIdempotent(hash: Manifest -> string, c: Ingresses, desired: seq<Manifest>, slot: string)
    requires WellHashed(hash, c, slot) && SlotManifests(hash, desired, slot)
    ensures WellHashed(hash, Replace(c, desired, slot), slot)
    ensures Replace(Replace(c, desired, slot), desired, slot) == Replace(c, desired, slot)
  {
    var once := Replace(c, desired, slot);
    var twice := Replace(once, desired, slot);
    forall n ensures (n in once <==> n in twice) && (n in once ==> once[n] == twice[n])
      ensures n in once ==> once[n].name == n && (StartsWith(n, RoutePrefix(slot)) || n == TlsName(slot) ==> Hashed(hash, once[n]))
    {
      AppliedAt(WithoutRoutes(c, slot), desired, n);
      AppliedAt(WithoutRoutes(once, slot), desired, n);
      if n in Names(desired) { var k := NamedIs(desired, n); }
    }
  }

  /** Whether `name` belongs to the slot's generated ingresses. */
  predicate OwnName(name: string, slot: string) {
    StartsWith(name, RoutePrefix(slot)) || name == TlsName(slot)
  }

  /** Ingresses of other slots and of users keep their place. */
  lemma ReplaceTouchesOwnNamesOnly(hash: Manifest -> string, c: Ingresses, desired: seq<Manifest>, slot: string, n: string)
    requires SlotManifests(hash, desired, slot) && !OwnName(n, slot)
    ensures (n in Replace(c, desired, slot) <==> n in c) && (n in c ==> Replace(c, desired, slot)[n] == c[n])
  {
    AppliedAt(WithoutRoutes(c, slot), desired, n);
  }

  /** The name ranges of different slots do not meet. */
  lemma OwnNamesOfSlotsDiffer(a: string, b: string, n: string)
    requires SandboxSlot(a) && SandboxSlot(b) && OwnName(n, a) && OwnName(n, b)
    ensures a == b
  {
    assert n[8..] == a + n[8 + |a|..] && n[8 + |a|] == '-';
    assert n[8..] == b + n[8 + |b|..] && n[8 + |b|] == '-';
    var tail := n[8..];
    assert forall k :: 0 <= k < |a| ==> tail[k] == a[k] && a[k] != '-';
    assert forall k :: 0 <= k < |b| ==> tail[k] == b[k] && b[k] != '-';
    assert tail[|a|] == '-' && tail[|b|] == '-';
  }

  // ---- applyRouting() ----

  lemma GeneratedNamesDiffer(slot: string, i: nat)
    ensures TlsName(slot) != RouteName(slot, i)
  {
    var head := "devdock-" + slot + "-";
    assert TlsName(slot)[|head|] == 't' && RouteName(slot, i)[|head|] == 'r';
  }

  lemma HashedIsSlotManifest(hash: Manifest -> string, m: Manifest)
    ensures Hashed(hash, WithRouteHash(hash, m)) && ROUTE_HASH in WithRouteHash(hash, m).annotations
  {
    HashIgnoresItself(hash, m);
  }

  lemma GeneratedNames(r: Routing, slot: string, sources: seq<Source>, services: map<string, string>)
    requires r.tls.name == TlsName(slot) && r.fallback == Fallback(sources, slot, r.maps, services)
    ensures DistinctNames([r.tls] + r.fallback)
    ensures forall m :: m in [r.tls] + r.fallback ==> OwnName(m.name, slot)
  {
    var index := FallbackNames(sources, slot, r.maps, services);
    NamedByIndex(r.tls, r.fallback, slot, index);
  }

  lemma NamedByIndex(tls: Manifest, fallback: seq<Manifest>, slot: string, index: seq<nat>)
    requires tls.name == TlsName(slot) && |index| == |fallback|
    requires forall k :: 0 <= k < |fallback| ==> fallback[k].name == RouteName(slot, index[k])
    requires forall j, k :: 0 <= j < k < |index| ==> index[j] < index[k]
    ensures DistinctNames([tls] + fallback)
    ensures forall m :: m in [tls] + fallback ==> OwnName(m.name, slot)
  {
    var all := [tls] + fallback;
    forall i, j | 0 <= i < j < |all| ensures all[i].name != all[j].name {
      if i == 0 {
        GeneratedNamesDiffer(slot, index[j - 1]);
      } else if all[i].name == all[j].name {
        RouteNamesDiffer(slot, index[i - 1], index[j - 1]);
      }
    }
    forall k | 0 <= k < |all| ensures OwnName(all[k].name, slot) {
      if k > 0 { RouteNameIsOwn(slot, index[k - 1]); }
    }
  }

  lemma RouteNameIsOwn(slot: string, index: nat)
    ensures OwnName(RouteName(slot, index), slot)
  {
    assert RouteName(slot, index)[..|RoutePrefix(slot)|] == RoutePrefix(slot);
  }

  lemma HashedAreSlotManifests(hash: Manifest -> string, all: seq<Manifest>, slot: string)
    requires DistinctNames(all) && forall m :: m in all ==> OwnName(m.name, slot)
    ensures SlotManifests(hash, seq(|all|, k requires 0 <= k < |all| => WithRouteHash(hash, all[k])), slot)
  {
    forall m { HashedIsSlotManifest(hash, m); }
  }

  /** What sandboxRouting() generates for a slot is what applyRouting() may rely on. */
  lemma DesiredAreSlotManifests(hash: Manifest -> string, r: Routing, slot: string, sources: seq<Source>, services: map<string, string>)
    requires r.tls.name == TlsName(slot) && r.fallback == Fallback(sources, slot, r.maps, services)
    ensures SlotManifests(hash, Desired(hash, r), slot)
  {
    GeneratedNames(r, slot, sources, services);
    HashedAreSlotManifests(hash, [r.tls] + r.fallback, slot);
  }

  /** The namespace's ingresses in the cluster. Every write is one kubectl call. */
  class Cluster {
    var ingresses: Ingresses
    ghost var writes: nat

    method Delete(names: set<string>)
      modifies this
      ensures ingresses == old(ingresses) - names && writes == old(writes) + 1
    {
      ingresses := ingresses - names;
      writes := writes + 1;
    }

    method Apply(m: Manifest)
      modifies this
      ensures ingresses == old(ingresses)[m.name := m] && writes == old(writes) + 1
    {
      ingresses := ingresses[m.name := m];
      writes := writes + 1;
    }
  }

  /** What the workers have done so far: each changed ingress is in the cluster, still to come or refused, and
      nothing else has been touched. */
  ghost predicate Progress(start: Ingresses, now: Ingresses, changed: seq<Manifest>, queue: seq<Manifest>, hands: seq<Option<Manifest>>, refused: set<Manifest>) {
    && (forall n :: n !in Names(changed) ==> (n in now <==> n in start) && (n in now ==> now[n] == start[n]))
    && (forall d :: d in changed && d.name in now ==> now[d.name] == d || (d.name in start && now[d.name] == start[d.name]))
    && (forall d :: d in changed && !(d.name in now && now[d.name] == d) ==> d in queue || Some(d) in hands || d in refused)
    && (forall d :: d in queue ==> d in changed)
    && (forall w :: 0 <= w < |hands| && hands[w].Some? ==> hands[w].value in changed)
  }

  function Busy(hands: seq<Option<Manifest>>): nat {
    if hands == [] then 0 else Busy(hands[..|hands| - 1]) + if hands[|hands| - 1].Some? then 1 else 0
  }

  lemma {:induction false} BusyUpdate(hands: seq<Option<Manifest>>, w: nat, x: Option<Manifest>)
    requires w < |hands| && hands[w].Some?
    ensures Busy(hands[w := x]) == Busy(hands) - if x.Some? then 0 else 1
  {
    var init := hands[..|hands| - 1];
    if w == |hands| - 1 {
      assert hands[w := x][..|hands| - 1] == init;
    } else {
      BusyUpdate(init, w, x);
      assert hands[w := x][..|hands| - 1] == init[w := x];
    }
  }

  lemma {:induction false} AllBusy(hands: seq<Option<Manifest>>)
    requires forall w :: 0 <= w < |hands| ==> hands[w].Some?
    ensures Busy(hands) == |hands|
  {
    if hands != [] { AllBusy(hands[..|hands| - 1]); }
  }

  lemma {:induction false} NobodyBusy(hands: seq<Option<Manifest>>)
    requires forall w :: 0 <= w < |hands| ==> hands[w].None?
    ensures Busy(hands) == 0
  {
    if hands != [] { NobodyBusy(hands[..|hands| - 1]); }
  }

  /** Each worker begins by shifting one ingress off the queue. */
  lemma StartProgress(start: Ingresses, changed: seq<Manifest>, size: nat)
    requires size <= |changed|
    ensures Progress(start, start, changed, changed[size..], seq(size, k requires 0 <= k < size => Some(changed[k])), {})
  {
    var hold := seq(size, k requires 0 <= k < size => Some(changed[k]));
    forall d | d in changed ensures d in changed[size..] || Some(d) in hold {
      var k :| 0 <= k < |changed| && changed[k] == d;
      if k < size { assert hold[k] == Some(d); } else { assert changed[size..][k - size] == d; }
    }
  }

  /** Worker `w` applies what it holds and shifts the next ingress off the shared queue. */
  lemma AppliedStep(start: Ingresses, now: Ingresses, changed: seq<Manifest>, queue: seq<Manifest>, hands: seq<Option<Manifest>>, refused: set<Manifest>, w: nat)
    requires DistinctNames(changed) && Progress(start, now, changed, queue, hands, refused)
    requires w < |hands| && hands[w].Some?
    ensures Progress(start, now[hands[w].value.name := hands[w].value], changed,
                     if queue == [] then [] else queue[1..], hands[w := if queue == [] then None else Some(queue[0])], refused)
  {
    var d := hands[w].value;
    var after := now[d.name := d];
    var hands' := hands[w := if queue == [] then None else Some(queue[0])];
    var queue' := if queue == [] then [] else queue[1..];
    assert d.name in Names(changed);
    forall e | e in changed && !(e.name in after && after[e.name] == e) ensures e in queue' || Some(e) in hands' || e in refused {
      assert e.name != d.name;
      if Some(e) in hands {
        var v :| 0 <= v < |hands| && hands[v] == Some(e);
        assert v != w && hands'[v] == Some(e);
      } else if e in queue {
        if e == queue[0] { assert hands'[w] == Some(e); }
      }
    }
  }

  /** Worker `w` throws; the others go on. */
  lemma RefusedStep(start: Ingresses, now: Ingresses, changed: seq<Manifest>, queue: seq<Manifest>, hands: seq<Option<Manifest>>, refused: set<Manifest>, w: nat)
    requires Progress(start, now, changed, queue, hands, refused)
    requires w < |hands| && hands[w].Some?
    ensures Progress(start, now, changed, queue, hands[w := None], refused + {hands[w].value})
  {
    var hands' := hands[w := None];
    forall e | e in changed && Some(e) in hands && e != hands[w].value ensures Some(e) in hands' {
      var v :| 0 <= v < |hands| && hands[v] == Some(e);
      assert hands'[v] == Some(e);
    }
  }

  /** When every worker is done, the cluster is what applying them all gives. */
  lemma DoneIsApplied(start: Ingresses, now: Ingresses, changed: seq<Manifest>, hands: seq<Option<Manifest>>)
    requires DistinctNames(changed) && Progress(start, now, changed, [], hands, {})
    requires forall w :: 0 <= w < |hands| ==> hands[w].None?
    ensures now == ApplyAll(start, changed)
  {
    forall n ensures (n in now <==> n in ApplyAll(start, changed)) && (n in now ==> now[n] == ApplyAll(start, changed)[n]) {
      AppliedAt(start, changed, n);
      if n in Names(changed) { var k := NamedIs(changed, n); }
    }
  }

  lemma ProgressKeepsHashes(hash: Manifest -> string, before: Ingresses, start: Ingresses, now: Ingresses, changed: seq<Manifest>,
                            queue: seq<Manifest>, hands: seq<Option<Manifest>>, refused: set<Manifest>, slot: string)
    requires WellHashed(hash, before, slot) && Progress(start, now, changed, queue, hands, refused)
    requires forall n :: n in start ==> n in before && start[n] == before[n]
    requires forall n :: n in before && !OwnName(n, slot) ==> n in start
    requires forall d :: d in changed ==> OwnName(d.name, slot) && Hashed(hash, d)
    ensures WellHashed(hash, now, slot)
    ensures forall n :: !OwnName(n, slot) ==> (n in now <==> n in before) && (n in now ==> now[n] == before[n])
  {
    forall n | n in now ensures now[n].name == n && (OwnName(n, slot) ==> Hashed(hash, now[n])) {
      if n in Names(changed) { var k := NamedIs(changed, n); }
    }
  }

  /** The concurrent apply: any worker that holds an ingress may be the next whose call completes, and any call
      may fail. */
  method RunWorkers(cluster: Cluster, changed: seq<Manifest>) returns (ok: bool, ghost queue: seq<Manifest>, ghost hands: seq<Option<Manifest>>, ghost refused: set<Manifest>)
    requires DistinctNames(changed)
    modifies cluster
    ensures Progress(old(cluster.ingresses), cluster.ingresses, changed, queue, hands, refused)
    ensures ok ==> cluster.ingresses == ApplyAll(old(cluster.ingresses), changed)
    ensures changed == [] ==> ok && cluster.writes == old(cluster.writes)
  {
    var size := Min(ROUTE_APPLY_CONCURRENCY, |changed|);
    var hold := seq(size, k requires 0 <= k < size => Some(changed[k]));
    var rest := changed[size..];
    refused := {};
    StartProgress(cluster.ingresses, changed, size);
    AllBusy(hold);
    ok := true;
    while exists w :: 0 <= w < |hold| && hold[w].Some?
      invariant |hold| == size && size == Min(ROUTE_APPLY_CONCURRENCY, |changed|)
      invariant Progress(old(cluster.ingresses), cluster.ingresses, changed, rest, hold, refused)
      invariant ok ==> refused == {} && (rest != [] ==> Busy(hold) == size > 0)
      invariant changed == [] ==> ok && cluster.writes == old(cluster.writes)
      decreases |rest| + Busy(hold)
    {
      var w :| 0 <= w < |hold| && hold[w].Some?;
      var fails: bool := *;
      if fails {
        RefusedStep(old(cluster.ingresses), cluster.ingresses, changed, rest, hold, refused, w);
        BusyUpdate(hold, w, None);
        refused := refused + {hold[w].value};
        ok, hold := false, hold[w := None];
      } else {
        AppliedStep(old(cluster.ingresses), cluster.ingresses, changed, rest, hold, refused, w);
        BusyUpdate(hold, w, if rest == [] then None else Some(rest[0]));
        cluster.Apply(hold[w].value);
        hold := hold[w := if rest == [] then None else Some(rest[0])];
        rest := if rest == [] then [] else rest[1..];
      }
    }
    NobodyBusy(hold);
    queue, hands := rest, hold;
    if ok { DoneIsApplied(old(cluster.ingresses), cluster.ingresses, changed, hold); }
  }

  /** applyRouting(). Success means the slot's routes have been replaced; a failure leaves a cluster from which a
      later call can succeed; and a call that finds everything in place writes nothing. */
  method ApplyRouting(cluster: Cluster, hash: Manifest -> string, slot: string, r: Routing) returns (ok: bool)
    requires Injective(hash) && WellHashed(hash, cluster.ingresses, slot)
    requires SlotManifests(hash, Desired(hash, r), slot)
    modifies cluster
    ensures ok ==> cluster.ingresses == Replace(old(cluster.ingresses), Desired(hash, r), slot)
    ensures WellHashed(hash, cluster.ingresses, slot)
    ensures forall n :: !OwnName(n, slot) ==>
              (n in cluster.ingresses <==> n in old(cluster.ingresses)) && (n in cluster.ingresses ==> cluster.ingresses[n] == old(cluster.ingresses[n]))
    ensures Replace(old(cluster.ingresses), Desired(hash, r), slot) == old(cluster.ingresses) ==> ok && cluster.writes == old(cluster.writes)
  {
    var desired := Desired(hash, r);
    ghost var before := cluster.ingresses;
    var changed := Changed(hash, cluster.ingresses, desired);
    var stale := StaleNames(cluster.ingresses, desired, changed, slot);
    ChangedIs(hash, before, desired);
    IncrementalIsReplace(hash, before, desired, slot);
    WritesNothingIffReplaced(hash, before, desired, slot);
    if stale != {} {
      var fails: bool := *;
      if fails { return false; }
      cluster.Delete(stale);
    } else {
      assert before - stale == before;
    }
    ghost var start := cluster.ingresses;
    ghost var queue, hands, refused;
    ok, queue, hands, refused := RunWorkers(cluster, changed);
    ProgressKeepsHashes(hash, before, start, cluster.ingresses, changed, queue, hands, refused, slot);
  }
}
