/** The objects of a plan are different objects, and come after what they need (driver/manifest_plan.py). */
module PlanNames {
  import opened Basics
  import opened Plan

  // ---------------------------------------------------------------------------------------------
  // Names that end in numbers

  lemma {:induction false} DashAt(a: string, m: nat, s: string)
    requires s == a + "-" + Decimal(m)
    ensures |s| == |a| + 1 + |Decimal(m)| && s[|a|] == '-'
  {
  }

  lemma {:induction false} DigitAt(a: string, m: nat, s: string, i: int)
    requires s == a + "-" + Decimal(m)
    ensures |a| < i < |s| ==> s[i] != '-'
  {
    if |a| < i < |s| { assert s[i] == Decimal(m)[i - |a| - 1]; }
  }

  lemma {:induction false} NotShorter(a: string, m: nat, b: string, n: nat, s: string)
    requires s == a + "-" + Decimal(m) && s == b + "-" + Decimal(n)
    ensures |a| >= |b|
  {
    DashAt(b, n, s);
    DigitAt(a, m, s, |b|);
  }

  /** A text with a number behind its last dash. */
  lemma {:induction false} EndNumber(a: string, m: nat, b: string, n: nat, s: string)
    requires s == a + "-" + Decimal(m) && s == b + "-" + Decimal(n)
    ensures a == b && m == n
  {
    NotShorter(a, m, b, n, s);
    NotShorter(b, n, a, m, s);
    assert a == s[..|a|] && b == s[..|b|];
    assert Decimal(m) == s[|a| + 1..] && Decimal(n) == s[|b| + 1..];
    DecimalInjective(m, n);
  }

  lemma {:induction false} DashesAppend(a: string, b: string)
    ensures Dashes(a + b) == Dashes(a) + Dashes(b)
  {
  }

  lemma {:induction false} DashesOfNumber(n: nat)
    ensures Dashes("-" + Decimal(n)) == "-" + Decimal(n)
  {
  }

  /** Putting dashes for underscores leaves the number at the end alone. */
  lemma {:induction false} DashesEnd(a: string, n: nat)
    ensures Dashes(a + "-" + Decimal(n)) == Dashes(a) + "-" + Decimal(n)
  {
    DashesAppend(a, "-" + Decimal(n));
    DashesOfNumber(n);
    assert a + "-" + Decimal(n) == a + ("-" + Decimal(n));
    assert Dashes(a) + "-" + Decimal(n) == Dashes(a) + ("-" + Decimal(n));
  }

  // ---------------------------------------------------------------------------------------------
  // The names of workers

  function Stem(ns: string, workload: string, role: Role): string {
    ns + "-" + workload + (match role case Single => "" case Server => "-server" case Client => "-client")
  }

  /** The name of an object, before its prefix is put before it and underscores become dashes. */
  lemma {:induction false} PlainName(ns: string, workload: string, role: Role, dep: nat, rep: nat)
    ensures Spell(Numbered(OfDeployment(ns, workload, role, dep), rep)) ==
            Stem(ns, workload, role) + "-" + Decimal(dep) + "-" + Decimal(rep)
  {
  }

  lemma {:induction false} PrefixedName(prefix: string, ns: string, workload: string, role: Role, dep: nat, rep: nat)
    ensures Spell(OfPod(prefix, Numbered(OfDeployment(ns, workload, role, dep), rep))) ==
            Dashes(prefix + Stem(ns, workload, role)) + "-" + Decimal(dep) + "-" + Decimal(rep)
  {
    var stem := Stem(ns, workload, role);
    PlainName(ns, workload, role, dep, rep);
    assert prefix + (stem + "-" + Decimal(dep) + "-" + Decimal(rep)) == prefix + stem + "-" + Decimal(dep) + "-" + Decimal(rep);
    DashesEnd(prefix + stem + "-" + Decimal(dep), rep);
    DashesEnd(prefix + stem, dep);
  }

  lemma {:induction false} CacheName(prefix: string, ns: string, workload: string, role: Role, dep: nat, rep: nat)
    ensures Spell(OfPod(prefix, OfCache(Numbered(OfDeployment(ns, workload, role, dep), rep)))) ==
            Dashes(prefix + Stem(ns, workload, role)) + "-" + Decimal(dep) + "-" + Decimal(rep) + "-dc"
  {
    var worker := Spell(Numbered(OfDeployment(ns, workload, role, dep), rep));
    assert prefix + (worker + "-dc") == prefix + worker + "-dc";
    DashesAppend(prefix + worker, "-dc");
    assert Dashes("-dc") == "-dc";
    PrefixedName(prefix, ns, workload, role, dep, rep);
  }

  lemma {:induction false} SameNumbers(a: string, d: nat, r: nat, b: string, e: nat, q: nat)
    requires a + "-" + Decimal(d) + "-" + Decimal(r) == b + "-" + Decimal(e) + "-" + Decimal(q)
    ensures a == b && d == e && r == q
  {
    var s := a + "-" + Decimal(d) + "-" + Decimal(r);
    EndNumber(a + "-" + Decimal(d), r, b + "-" + Decimal(e), q, s);
    EndNumber(a, d, b, e, a + "-" + Decimal(d));
  }

  /** Server and client names differ before their numbers, and stay different with dashes for underscores. */
  lemma {:induction false} StemsDiffer(prefix: string, ns: string, workload: string)
    ensures Stem(ns, workload, Server) != Stem(ns, workload, Client)
    ensures Dashes(prefix + Stem(ns, workload, Server)) != Dashes(prefix + Stem(ns, workload, Client))
  {
    var s, c := Stem(ns, workload, Server), Stem(ns, workload, Client);
    assert s[|s| - 1] == 'r' && c[|c| - 1] == 't';
    var x, y := prefix + s, prefix + c;
    assert x[|x| - 1] == 'r' && y[|y| - 1] == 't';
    assert Dashes(x)[|x| - 1] == 'r' && Dashes(y)[|y| - 1] == 't';
  }

  /** What an object of a workload is: the drop-cache pod or the worker of a role, deployment and replica. */
  datatype Place = Place(cache: bool, role: Role, dep: nat, rep: nat)

  function PlainOf(c: Config, ns: string, p: Place): Name {
    var worker := Numbered(OfDeployment(ns, c.workload, p.role, p.dep), p.rep);
    if p.cache then OfCache(worker) else worker
  }

  /** The name of an object with or without the prefix. */
  function NameOf(c: Config, ns: string, p: Place, prefixed: bool): Name {
    if prefixed then OfPod(c.podPrefix, PlainOf(c, ns, p)) else PlainOf(c, ns, p)
  }

  predicate RoleOk(c: Config, p: Place) {
    if p.cache || !c.clientServer then p.role == Single else p.role != Single
  }

  lemma {:induction false} SpelledPrefixed(c: Config, ns: string, p: Place)
    ensures Spell(NameOf(c, ns, p, true)) ==
            Dashes(c.podPrefix + Stem(ns, c.workload, p.role)) + "-" + Decimal(p.dep) + "-" + Decimal(p.rep)
            + if p.cache then "-dc" else ""
  {
    if p.cache {
      CacheName(c.podPrefix, ns, c.workload, p.role, p.dep, p.rep);
    } else {
      PrefixedName(c.podPrefix, ns, c.workload, p.role, p.dep, p.rep);
    }
  }

  lemma {:induction false} EndsInDigit(a: string, n: nat, s: string)
    requires s == a + "-" + Decimal(n)
    ensures s != [] && '0' <= s[|s| - 1] <= '9'
  {
  }

  /** Within a namespace the spelled name tells the place. */
  lemma {:induction false} PrefixedNamesDiffer(c: Config, ns: string, p: Place, q: Place)
    requires RoleOk(c, p) && RoleOk(c, q) && Spell(NameOf(c, ns, p, true)) == Spell(NameOf(c, ns, q, true))
    ensures p == q
  {
    SpelledPrefixed(c, ns, p);
    SpelledPrefixed(c, ns, q);
    var a := Dashes(c.podPrefix + Stem(ns, c.workload, p.role));
    var b := Dashes(c.podPrefix + Stem(ns, c.workload, q.role));
    var x := a + "-" + Decimal(p.dep) + "-" + Decimal(p.rep);
    var y := b + "-" + Decimal(q.dep) + "-" + Decimal(q.rep);
    SameEnding(x, p.cache, y, q.cache, a + "-" + Decimal(p.dep), p.rep, b + "-" + Decimal(q.dep), q.rep);
    SameNumbers(a, p.dep, p.rep, b, q.dep, q.rep);
    StemsDiffer(c.podPrefix, ns, c.workload);
  }

  lemma {:induction false} SameEnding(x: string, cx: bool, y: string, cy: bool, a: string, m: nat, b: string, n: nat)
    requires x == a + "-" + Decimal(m) && y == b + "-" + Decimal(n)
    requires x + (if cx then "-dc" else "") == y + (if cy then "-dc" else "")
    ensures cx == cy && x == y
  {
    EndsInDigit(a, m, x);
    EndsInDigit(b, n, y);
    var s, t := x + (if cx then "-dc" else ""), y + (if cy then "-dc" else "");
    assert s[|s| - 1] == if cx then 'c' else x[|x| - 1];
    assert t[|t| - 1] == if cy then 'c' else y[|y| - 1];
    assert x == s[..|x|] && y == t[..|y|];
  }

  lemma {:induction false} PlainNamesDiffer(c: Config, ns: string, p: Place, q: Place)
    requires RoleOk(c, p) && RoleOk(c, q) && !p.cache && !q.cache
    requires Spell(NameOf(c, ns, p, false)) == Spell(NameOf(c, ns, q, false))
    ensures p == q
  {
    PlainName(ns, c.workload, p.role, p.dep, p.rep);
    PlainName(ns, c.workload, q.role, q.dep, q.rep);
    SameNumbers(Stem(ns, c.workload, p.role), p.dep, p.rep, Stem(ns, c.workload, q.role), q.dep, q.rep);
    StemsDiffer(c.podPrefix, ns, c.workload);
  }

  // ---------------------------------------------------------------------------------------------
  // The objects of the workloads

  /** The place that a name is made from. */
  function PlaceOf(name: Name): Place {
    match name
    case Numbered(OfDeployment(_, _, role, dep), rep) => Place(false, role, dep, rep)
    case OfCache(worker) => PlaceOf(worker).(cache := true)
    case OfPod(_, base) => PlaceOf(base)
    case _ => Place(false, Single, 0, 0)
  }

  /** An object of a workload, named as its place demands: a service or a virtual machine without the prefix. */
  predicate Placed(c: Config, m: Manifest) {
    var p := PlaceOf(m.name);
    && RoleOk(c, p) && m.name == NameOf(c, m.namespace, p, m.kind !in {Service, VirtualMachine})
    && (m.kind in {Service, VirtualMachine} ==> !p.cache)
  }

  datatype Id = Id(kind: Kind, namespace: string, place: Place)

  function IdOf(m: Manifest): Id {
    Id(m.kind, m.namespace, PlaceOf(m.name))
  }

  lemma {:induction false} KeyTellsId(c: Config, m: Manifest, n: Manifest)
    requires Placed(c, m) && Placed(c, n) && KeyOf(m) == KeyOf(n)
    ensures IdOf(m) == IdOf(n)
  {
    if m.kind in {Service, VirtualMachine} {
      PlainNamesDiffer(c, m.namespace, PlaceOf(m.name), PlaceOf(n.name));
    } else {
      PrefixedNamesDiffer(c, m.namespace, PlaceOf(m.name), PlaceOf(n.name));
    }
  }

  /** All objects of a list are placed, and no two at the same place. */
  ghost predicate Laid(c: Config, ms: seq<Manifest>) {
    && (forall i :: 0 <= i < |ms| ==> Placed(c, ms[i]))
    && (forall i, j :: 0 <= i < j < |ms| ==> IdOf(ms[i]) != IdOf(ms[j]))
  }

  ghost predicate Apart(a: seq<Manifest>, b: seq<Manifest>) {
    forall i, j :: 0 <= i < |a| && 0 <= j < |b| ==> IdOf(a[i]) != IdOf(b[j])
  }

  lemma {:induction false} LaidAppend(c: Config, a: seq<Manifest>, b: seq<Manifest>)
    requires Laid(c, a) && Laid(c, b) && Apart(a, b)
    ensures Laid(c, a + b)
  {
  }

  /** The objects of a list are in this namespace, at this deployment, from 1 to n. */
  ghost predicate Workers1ToN(c: Config, ms: seq<Manifest>, ns: string, cache: bool, role: Role, dep: nat, n: nat) {
    && Laid(c, ms)
    && forall i :: 0 <= i < |ms| ==>
         var p := PlaceOf(ms[i].name);
         ms[i].namespace == ns && ms[i].kind !in {Namespace, ConfigMap, Secret, Service}
         && p.cache == cache && p.role == role && p.dep == dep && 1 <= p.rep <= n
  }

  lemma {:induction false} OneMoreWorker(c: Config, ms: seq<Manifest>, ns: string, cache: bool, role: Role, dep: nat, n: nat, m: Manifest)
    requires Workers1ToN(c, ms, ns, cache, role, dep, n) && Placed(c, m)
    requires m.namespace == ns && m.kind !in {Namespace, ConfigMap, Secret, Service}
    requires PlaceOf(m.name) == Place(cache, role, dep, n + 1)
    ensures Workers1ToN(c, ms + [m], ns, cache, role, dep, n + 1)
  {
    LaidAppend(c, ms, [m]);
  }

  lemma {:induction false} WorkersLaid(c: Config, ns: string, role: Role, dep: nat, host: Host, n: nat)
    requires RoleOk(c, Place(false, role, dep, 0))
    ensures Workers1ToN(c, WorkerObjects(c, ns, role, dep, host, n), ns, false, role, dep, n)
  {
    if n > 0 {
      WorkersLaid(c, ns, role, dep, host, n - 1);
      var before, m := WorkerObjects(c, ns, role, dep, host, n - 1), WorkerObject(c, ns, role, dep, host, n);
      OneMoreWorker(c, before, ns, false, role, dep, n - 1, m);
    }
  }

  lemma {:induction false} CachePlace(c: Config, ns: string, dep: nat, host: Host, n: nat)
    ensures PlaceOf(DropCachePod(c, ns, dep, host, n).name) == Place(true, Single, dep, n)
    ensures Placed(c, DropCachePod(c, ns, dep, host, n))
  {
    var worker := ObjectName(c, ns, Single, dep, n);
    assert PlaceOf(OfCache(worker)) == Place(true, Single, dep, n);
  }

  lemma {:induction false} CachesLaid(c: Config, ns: string, dep: nat, host: Host, n: nat)
    ensures Workers1ToN(c, DropCachePods(c, ns, dep, host, n), ns, true, Single, dep, n)
  {
    if n > 0 {
      CachesLaid(c, ns, dep, host, n - 1);
      CachePlace(c, ns, dep, host, n);
      OneMoreWorker(c, DropCachePods(c, ns, dep, host, n - 1), ns, true, Single, dep, n - 1, DropCachePod(c, ns, dep, host, n));
    }
  }

  /** The objects of a list belong to a namespace, and to deployments below a bound. */
  ghost predicate OfDeployments(c: Config, ms: seq<Manifest>, ns: string, lo: nat, hi: nat) {
    && Laid(c, ms)
    && forall i :: 0 <= i < |ms| ==>
         ms[i].namespace == ns && ms[i].kind !in {Namespace, ConfigMap, Secret} && lo <= PlaceOf(ms[i].name).dep < hi
  }

  lemma {:induction false} RolesLaid(c: Config, ns: string, dep: nat, host: Host)
    ensures var ms := Workers(c, ns, dep, host);
            && OfDeployments(c, ms, ns, dep, dep + 1)
            && forall i :: 0 <= i < |ms| ==> ms[i].kind != Service && !PlaceOf(ms[i].name).cache
  {
    if c.clientServer {
      WorkersLaid(c, ns, Server, dep, host, 1);
      WorkersLaid(c, ns, Client, dep, host, c.replicas);
      LaidAppend(c, WorkerObjects(c, ns, Server, dep, host, 1), WorkerObjects(c, ns, Client, dep, host, c.replicas));
    } else {
      WorkersLaid(c, ns, Single, dep, host, c.replicas);
    }
  }

  lemma {:induction false} DeploymentLaid(c: Config, ns: string, dep: nat, host: Host)
    ensures OfDeployments(c, DeploymentObjects(c, ns, dep, host), ns, dep, dep + 1)
  {
    var caches, services, workers := Caches(c, ns, dep, host), ServerServices(c, ns, dep), Workers(c, ns, dep, host);
    CachesLaid(c, ns, dep, host, c.replicas);
    RolesLaid(c, ns, dep, host);
    LaidAppend(c, caches, services);
    LaidAppend(c, caches + services, workers);
  }

  lemma {:induction false} MoreDeployments(c: Config, a: seq<Manifest>, b: seq<Manifest>, ns: string, lo: nat, mid: nat, hi: nat)
    requires OfDeployments(c, a, ns, lo, mid) && OfDeployments(c, b, ns, mid, hi) && lo <= mid <= hi
    ensures OfDeployments(c, a + b, ns, lo, hi)
  {
    LaidAppend(c, a, b);
  }

  lemma {:induction false} DeploymentsLaid(c: Config, ns: string, host: Host, n: nat, lo: nat, hi: nat)
    requires lo == c.first && hi == c.first + n
    ensures OfDeployments(c, Deployments(c, ns, host, n), ns, lo, hi)
  {
    if n > 0 {
      var before := Deployments(c, ns, host, n - 1);
      DeploymentsLaid(c, ns, host, n - 1, lo, hi - 1);
      var piece, dep := DeploymentsStep(c, ns, host, n);
      PieceLaid(c, ns, host, dep, piece, hi);
      MoreDeployments(c, before, piece, ns, lo, hi - 1, hi);
    }
  }

  lemma {:induction false} PieceLaid(c: Config, ns: string, host: Host, dep: nat, piece: seq<Manifest>, hi: nat)
    requires piece == DeploymentObjects(c, ns, dep, host) && hi == dep + 1
    ensures OfDeployments(c, piece, ns, hi - 1, hi)
  {
    DeploymentLaid(c, ns, dep, host);
  }

  /** The objects of all workloads: placed, no two at the same place, each in one of the namespaces. */
  lemma {:induction false} WorkloadsLaid(c: Config, nss: seq<string>, host: Host)
    requires Distinct(nss)
    ensures Laid(c, Workloads(c, nss, host))
    ensures forall i :: 0 <= i < |Workloads(c, nss, host)| ==>
              var m := Workloads(c, nss, host)[i]; m.namespace in nss && m.kind !in {Namespace, ConfigMap, Secret}
  {
    if nss != [] {
      var front, last := nss[..|nss| - 1], nss[|nss| - 1];
      WorkloadsLaid(c, front, host);
      DeploymentsLaid(c, last, host, c.deps, c.first, c.first + c.deps);
      assert last !in front;
      LaidAppend(c, Workloads(c, front, host), Deployments(c, last, host, c.deps));
    }
  }
}
