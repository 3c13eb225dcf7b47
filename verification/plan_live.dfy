/** The live run: namespace by namespace, filtered, instead of the whole plan at once (driver/orchestrator.py). What
    follows for a whole run is in plan_run.dfy. */
module PlanLive {
  import opened Plan

  // ---------------------------------------------------------------------------------------------
  // The filters

  predicate Infrastructure(kind: Kind) {
    kind == Namespace || kind == ConfigMap || kind == Secret || kind == Service
  }

  /** What _create_all_deployments keeps of the plan for one namespace. */
  predicate Kept(c: Config, m: Manifest) {
    !Infrastructure(m.kind) && Spell(m.name) != SyncPodName(c)
  }

  function Keep(c: Config, ms: seq<Manifest>): seq<Manifest> {
    if ms == [] then []
    else Keep(c, ms[..|ms| - 1]) + if Kept(c, ms[|ms| - 1]) then [ms[|ms| - 1]] else []
  }

  /** What _create_sync_services takes from the whole plan. */
  predicate IsSyncObject(c: Config, nss: seq<string>, m: Manifest) {
    || (m.kind == ConfigMap && m.namespace == SyncNamespace(c, nss) && SyncNamespace(c, nss) !in nss)
    || m.kind == Service
    || (m.kind == Pod && Spell(m.name) == SyncPodName(c))
  }

  function SyncPart(c: Config, nss: seq<string>, ms: seq<Manifest>): seq<Manifest> {
    if ms == [] then []
    else SyncPart(c, nss, ms[..|ms| - 1]) + if IsSyncObject(c, nss, ms[|ms| - 1]) then [ms[|ms| - 1]] else []
  }

  function Concat(pieces: seq<seq<Manifest>>): seq<Manifest> {
    if pieces == [] then [] else Concat(pieces[..|pieces| - 1]) + pieces[|pieces| - 1]
  }

  /** The objects submitted for the workers of each namespace. */
  function Pieces(c: Config, nss: seq<string>): seq<seq<Manifest>> {
    seq(|nss|, i requires 0 <= i < |nss| => Keep(c, Objects(c, [nss[i]])))
  }

  function Live(c: Config, nss: seq<string>): seq<Manifest> {
    Concat(Pieces(c, nss))
  }

  lemma {:induction false} SyncPartStep(c: Config, nss: seq<string>, ms: seq<Manifest>, i: nat)
    requires i < |ms|
    ensures SyncPart(c, nss, ms[..i + 1]) ==
      SyncPart(c, nss, ms[..i]) + if IsSyncObject(c, nss, ms[i]) then [ms[i]] else []
  {
    assert ms[..i + 1][..i] == ms[..i];
  }

  lemma {:induction false} KeepStep(c: Config, ms: seq<Manifest>, i: nat)
    requires i < |ms|
    ensures Keep(c, ms[..i + 1]) == Keep(c, ms[..i]) + if Kept(c, ms[i]) then [ms[i]] else []
  {
    assert ms[..i + 1][..i] == ms[..i];
  }

  method CreateSyncServices(c: Config, nss: seq<string>) returns (submitted: seq<Manifest>)
    ensures submitted == if c.syncStart then SyncPart(c, nss, Objects(c, nss)) else []
  {
    submitted := [];
    if c.syncStart {
      var all := BuildManifestPlan(c, nss);
      submitted := SelectSyncObjects(c, nss, all);
    }
  }

  method SelectSyncObjects(c: Config, nss: seq<string>, all: seq<Manifest>) returns (submitted: seq<Manifest>)
    ensures submitted == SyncPart(c, nss, all)
  {
    submitted := [];
    var ns := SyncNamespace(c, nss);
    for i := 0 to |all|
      invariant submitted == SyncPart(c, nss, all[..i])
    {
      SyncPartStep(c, nss, all, i);
      var m := all[i];
      if m.kind == ConfigMap && m.namespace == ns && ns !in nss {
        submitted := submitted + [m];
      } else if m.kind == Service {
        submitted := submitted + [m];
      } else if m.kind == Pod && Spell(m.name) == SyncPodName(c) {
        submitted := submitted + [m];
      }
    }
    assert all[..|all|] == all;
  }

  /** The build function handed to the parallel creator. */
  method BuildForNamespace(c: Config, nss: seq<string>, i: nat) returns (manifests: seq<Manifest>)
    requires i < |nss|
    ensures manifests == Keep(c, Objects(c, [nss[i]]))
  {
    var all := BuildManifestPlan(c, [nss[i]]);
    manifests := SelectWorkers(c, all);
  }

  method SelectWorkers(c: Config, all: seq<Manifest>) returns (manifests: seq<Manifest>)
    ensures manifests == Keep(c, all)
  {
    manifests := [];
    for j := 0 to |all|
      invariant manifests == Keep(c, all[..j])
    {
      KeepStep(c, all, j);
      if !Infrastructure(all[j].kind) && Spell(all[j].name) != SyncPodName(c) {
        manifests := manifests + [all[j]];
      }
    }
    assert all[..|all|] == all;
  }

  lemma {:induction false} KeepAppend(c: Config, a: seq<Manifest>, b: seq<Manifest>)
    ensures Keep(c, a + b) == Keep(c, a) + Keep(c, b)
  {
    if b == [] {
      assert a + b == a;
    } else {
      assert (a + b)[..|a + b| - 1] == a + b[..|b| - 1];
      KeepAppend(c, a, b[..|b| - 1]);
    }
  }

  /** Every object is of an infrastructure kind. */
  ghost predicate AllInfrastructure(ms: seq<Manifest>) {
    forall i :: 0 <= i < |ms| ==> Infrastructure(ms[i].kind)
  }

  lemma {:induction false} KeepNone(c: Config, ms: seq<Manifest>)
    requires AllInfrastructure(ms)
    ensures Keep(c, ms) == []
  {
    if ms != [] { KeepNone(c, ms[..|ms| - 1]); }
  }

  lemma {:induction false} InfrastructureLists(c: Config, nss: seq<string>, target: Host)
    ensures AllInfrastructure(Namespaces(nss)) && AllInfrastructure(AllConfigMaps(c, nss))
    ensures AllInfrastructure(AllSecrets(c, nss)) && AllInfrastructure(Aliases(c, nss, target))
  {
    if nss != [] {
      InfrastructureLists(c, nss[..|nss| - 1], target);
      SecretsAreInfrastructure(c, nss[|nss| - 1], c.deps);
    }
  }

  lemma {:induction false} SecretsAreInfrastructure(c: Config, ns: string, n: nat)
    ensures AllInfrastructure(DeploymentSecrets(c, ns, n))
  {
    if n > 0 {
      SecretsAreInfrastructure(c, ns, n - 1);
      SecretListIsInfrastructure(ns, c.first + n - 1, c.secrets);
    }
  }

  lemma {:induction false} SecretListIsInfrastructure(ns: string, dep: nat, n: nat)
    ensures AllInfrastructure(SecretsOf(ns, dep, n))
  {
    if n > 0 { SecretListIsInfrastructure(ns, dep, n - 1); }
  }

  // ---------------------------------------------------------------------------------------------
  // The sync pod in the filters

  /** The sync pod has the name by which the filters look for it exactly if the prefix is empty and the base name has
      no underscore (mkpodname() puts the one in front and replaces the other). */
  predicate Recognisable(c: Config) {
    c.podPrefix == "" && '_' !in c.basename
  }

  lemma {:induction false} RecognisedExactly(c: Config)
    ensures PodName(c.podPrefix, SyncPodName(c)) == SyncPodName(c) <==> Recognisable(c)
  {
    var name := SyncPodName(c);
    if Recognisable(c) {
      assert c.podPrefix + name == name;
      forall i | 0 <= i < |name| ensures name[i] != '_' {
        assert i < |c.basename| ==> name[i] == c.basename[i];
      }
      assert Dashes(name) == name;
    }
    if PodName(c.podPrefix, name) == name {
      assert |PodName(c.podPrefix, name)| == |c.podPrefix| + |name|;
      assert c.podPrefix + name == name;
      forall i | 0 <= i < |c.basename| ensures c.basename[i] != '_' {
        assert name[i] == c.basename[i] && Dashes(name)[i] == name[i];
      }
    }
  }

  /** The sync pod among the objects a filter lets through. */
  function Missed(c: Config, nss: seq<string>): seq<Manifest> {
    if c.syncStart && !Recognisable(c) then [SyncPod(c, nss)] else []
  }

  lemma {:induction false} KeepAround(c: Config, front: seq<Manifest>, pod: Manifest, back: seq<Manifest>)
    requires AllInfrastructure(front) && AllInfrastructure(back)
    ensures Keep(c, front + [pod] + back) == if Kept(c, pod) then [pod] else []
  {
    KeepNone(c, front);
    KeepNone(c, back);
    KeepAppend(c, front + [pod], back);
    assert (front + [pod])[..|front|] == front;
  }

  lemma {:induction false} SyncPodKept(c: Config, nss: seq<string>)
    ensures Kept(c, SyncPod(c, nss)) <==> !Recognisable(c)
  {
    RecognisedExactly(c);
    assert Spell(Text(SyncPodName(c))) == SyncPodName(c);
  }

  lemma {:induction false} KeepSync(c: Config, nss: seq<string>)
    requires c.syncStart
    ensures Keep(c, SyncObjects(c, nss)) == Missed(c, nss)
  {
    var ns, pod, aliases := SyncNamespace(c, nss), SyncPod(c, nss), Aliases(c, nss, SyncHost(c, nss));
    var config := if ns in nss then [] else [Manifest(ConfigMap, ns, Text(c.basename + "-system-configmap"), Plain)];
    InfrastructureLists(c, nss, SyncHost(c, nss));
    SyncPodKept(c, nss);
    KeepAround(c, config + [Manifest(Service, ns, Text(SyncService(c)), Plain)], pod, aliases);
  }

  lemma {:induction false} InfrastructureAppend(a: seq<Manifest>, b: seq<Manifest>)
    requires AllInfrastructure(a) && AllInfrastructure(b)
    ensures AllInfrastructure(a + b)
  {
  }

  lemma {:induction false} KeepParts(c: Config, infrastructure: seq<Manifest>, sync: seq<Manifest>, workloads: seq<Manifest>)
    requires AllInfrastructure(infrastructure)
    ensures Keep(c, infrastructure + sync + workloads) == Keep(c, sync) + Keep(c, workloads)
  {
    KeepNone(c, infrastructure);
    KeepAppend(c, infrastructure, sync);
    KeepAppend(c, infrastructure + sync, workloads);
  }

  /** The filtered plan: the sync pod where it is not recognised, and the workers. */
  lemma {:induction false} KeepObjects(c: Config, nss: seq<string>, workloads: seq<Manifest>)
    requires workloads == Workloads(c, nss, SyncHost(c, nss))
    ensures Keep(c, Objects(c, nss)) == Missed(c, nss) + Keep(c, workloads)
  {
    var a, b, m, s := Namespaces(nss), SyncNamespaceObject(c, nss), AllConfigMaps(c, nss), AllSecrets(c, nss);
    var sync := if c.syncStart then SyncObjects(c, nss) else [];
    InfrastructureLists(c, nss, SyncHost(c, nss));
    InfrastructureAppend(a, b);
    InfrastructureAppend(a + b, m);
    InfrastructureAppend(a + b + m, s);
    if c.syncStart { KeepSync(c, nss); }
    KeepParts(c, a + b + m + s, sync, workloads);
  }

  // ---------------------------------------------------------------------------------------------
  // Decomposition

  /** The same object, reporting to another host. */
  function At(m: Manifest, host: Host): Manifest {
    match m.load
    case DropCache(_) => m.(load := DropCache(host))
    case Worker(role, containers, _) => m.(load := Worker(role, containers, host))
    case _ => m
  }

  /** Every object reporting to the sync service name of its own namespace, if the namespaces have one each. */
  function Local(c: Config, ms: seq<Manifest>): seq<Manifest> {
    if ms == [] then []
    else Local(c, ms[..|ms| - 1]) + [At(ms[|ms| - 1], SyncHost(c, [ms[|ms| - 1].namespace]))]
  }

  lemma {:induction false} LocalAppend(c: Config, a: seq<Manifest>, b: seq<Manifest>)
    ensures Local(c, a + b) == Local(c, a) + Local(c, b)
  {
    if b == [] {
      assert a + b == a;
    } else {
      assert (a + b)[..|a + b| - 1] == a + b[..|b| - 1];
      LocalAppend(c, a, b[..|b| - 1]);
    }
  }

  lemma {:induction false} LocalKeep(c: Config, ms: seq<Manifest>)
    ensures Local(c, Keep(c, ms)) == Keep(c, Local(c, ms))
  {
    if ms != [] {
      var front, last := ms[..|ms| - 1], ms[|ms| - 1];
      var there := At(last, SyncHost(c, [last.namespace]));
      LocalKeep(c, front);
      assert there.kind == last.kind && there.name == last.name && there.namespace == last.namespace;
      assert (Local(c, front) + [there])[..|Local(c, front)|] == Local(c, front);
      LocalAppend(c, Keep(c, front), if Kept(c, last) then [last] else []);
    }
  }

  lemma {:induction false} LocalStep(c: Config, front: seq<Manifest>, m: Manifest)
    ensures Local(c, front + [m]) == Local(c, front) + [At(m, SyncHost(c, [m.namespace]))]
  {
    assert (front + [m])[..|front|] == front;
  }

  lemma {:induction false} WorkersStep(c: Config, ns: string, role: Role, dep: nat, host: Host, there: Host, n: nat)
    returns (m: Manifest, w: Manifest)
    requires n > 0
    ensures WorkerObjects(c, ns, role, dep, host, n) == WorkerObjects(c, ns, role, dep, host, n - 1) + [m]
    ensures WorkerObjects(c, ns, role, dep, there, n) == WorkerObjects(c, ns, role, dep, there, n - 1) + [w]
    ensures w == At(m, there) && m.namespace == ns
  {
    m, w := WorkerObject(c, ns, role, dep, host, n), WorkerObject(c, ns, role, dep, there, n);
  }

  lemma {:induction false} LocalWorkers(c: Config, ns: string, role: Role, dep: nat, host: Host, there: Host, n: nat)
    requires there == SyncHost(c, [ns])
    ensures Local(c, WorkerObjects(c, ns, role, dep, host, n)) == WorkerObjects(c, ns, role, dep, there, n)
  {
    if n > 0 {
      LocalWorkers(c, ns, role, dep, host, there, n - 1);
      var m, w := WorkersStep(c, ns, role, dep, host, there, n);
      LocalStep(c, WorkerObjects(c, ns, role, dep, host, n - 1), m);
    }
  }

  lemma {:induction false} DropCacheStep(c: Config, ns: string, dep: nat, host: Host, there: Host, n: nat)
    returns (m: Manifest, w: Manifest)
    requires n > 0
    ensures DropCachePods(c, ns, dep, host, n) == DropCachePods(c, ns, dep, host, n - 1) + [m]
    ensures DropCachePods(c, ns, dep, there, n) == DropCachePods(c, ns, dep, there, n - 1) + [w]
    ensures w == At(m, there) && m.namespace == ns
  {
    m, w := DropCachePod(c, ns, dep, host, n), DropCachePod(c, ns, dep, there, n);
  }

  lemma {:induction false} LocalDropCache(c: Config, ns: string, dep: nat, host: Host, there: Host, n: nat)
    requires there == SyncHost(c, [ns])
    ensures Local(c, DropCachePods(c, ns, dep, host, n)) == DropCachePods(c, ns, dep, there, n)
  {
    if n > 0 {
      LocalDropCache(c, ns, dep, host, there, n - 1);
      var m, w := DropCacheStep(c, ns, dep, host, there, n);
      LocalStep(c, DropCachePods(c, ns, dep, host, n - 1), m);
    }
  }

  lemma {:induction false} LocalRoles(c: Config, ns: string, dep: nat, host: Host, there: Host)
    requires there == SyncHost(c, [ns])
    ensures Local(c, Workers(c, ns, dep, host)) == Workers(c, ns, dep, there)
  {
    if c.clientServer {
      LocalWorkers(c, ns, Server, dep, host, there, 1);
      LocalWorkers(c, ns, Client, dep, host, there, c.replicas);
      LocalAppend(c, WorkerObjects(c, ns, Server, dep, host, 1), WorkerObjects(c, ns, Client, dep, host, c.replicas));
    } else {
      LocalWorkers(c, ns, Single, dep, host, there, c.replicas);
    }
  }

  lemma {:induction false} LocalCaches(c: Config, ns: string, dep: nat, host: Host, there: Host)
    requires there == SyncHost(c, [ns])
    ensures Local(c, Caches(c, ns, dep, host)) == Caches(c, ns, dep, there)
  {
    if c.dropCache { LocalDropCache(c, ns, dep, host, there, c.replicas); }
  }

  lemma {:induction false} LocalServices(c: Config, ns: string, dep: nat)
    ensures Local(c, ServerServices(c, ns, dep)) == ServerServices(c, ns, dep)
  {
    if c.clientServer && c.listens { LocalStep(c, [], ServerService(c, ns, dep)); }
  }

  lemma {:induction false} LocalThree(c: Config, x: seq<Manifest>, y: seq<Manifest>, z: seq<Manifest>)
    ensures Local(c, x + y + z) == Local(c, x) + Local(c, y) + Local(c, z)
  {
    LocalAppend(c, x, y);
    LocalAppend(c, x + y, z);
  }

  lemma {:induction false} LocalDeployment(c: Config, ns: string, dep: nat, host: Host, there: Host)
    requires there == SyncHost(c, [ns])
    ensures Local(c, DeploymentObjects(c, ns, dep, host)) == DeploymentObjects(c, ns, dep, there)
  {
    LocalCaches(c, ns, dep, host, there);
    LocalServices(c, ns, dep);
    LocalRoles(c, ns, dep, host, there);
    LocalThree(c, Caches(c, ns, dep, host), ServerServices(c, ns, dep), Workers(c, ns, dep, host));
  }

  lemma {:induction false} PairStep(c: Config, ns: string, host: Host, there: Host, n: nat) returns (p: seq<Manifest>, q: seq<Manifest>)
    requires n > 0 && there == SyncHost(c, [ns])
    ensures Deployments(c, ns, host, n) == Deployments(c, ns, host, n - 1) + p
    ensures Deployments(c, ns, there, n) == Deployments(c, ns, there, n - 1) + q
    ensures Local(c, p) == q
  {
    var d, e;
    p, d := DeploymentsStep(c, ns, host, n);
    q, e := DeploymentsStep(c, ns, there, n);
    LocalDeployment(c, ns, d, host, there);
  }

  lemma {:induction false} LocalDeployments(c: Config, ns: string, host: Host, there: Host, n: nat)
    requires there == SyncHost(c, [ns])
    ensures Local(c, Deployments(c, ns, host, n)) == Deployments(c, ns, there, n)
  {
    if n > 0 {
      LocalDeployments(c, ns, host, there, n - 1);
      var p, q := PairStep(c, ns, host, there, n);
      LocalAppend(c, Deployments(c, ns, host, n - 1), p);
    }
  }

  /** Keeping and re-addressing the objects of all namespaces is doing so for each of them. */
  lemma {:induction false} LocalWorkloads(c: Config, nss: seq<string>, host: Host)
    ensures Local(c, Keep(c, Workloads(c, nss, host))) == Gathered(c, nss)
  {
    if nss != [] {
      var front, ns := nss[..|nss| - 1], nss[|nss| - 1];
      var there := SyncHost(c, [ns]);
      LocalWorkloads(c, front, host);
      LocalDeployments(c, ns, host, there, c.deps);
      LocalKeep(c, Deployments(c, ns, host, c.deps));
      KeepAppend(c, Workloads(c, front, host), Deployments(c, ns, host, c.deps));
      LocalAppend(c, Keep(c, Workloads(c, front, host)), Keep(c, Deployments(c, ns, host, c.deps)));
    }
  }

  /** The workers of every namespace, reporting to the service of their own namespace. */
  function Gathered(c: Config, nss: seq<string>): seq<Manifest> {
    if nss == [] then []
    else Gathered(c, nss[..|nss| - 1]) + OwnWorkers(c, nss[|nss| - 1])
  }

  function OwnWorkers(c: Config, ns: string): seq<Manifest> {
    Keep(c, Deployments(c, ns, SyncHost(c, [ns]), c.deps))
  }

  /** What one namespace contributes to the live run. */
  lemma {:induction false} OneNamespace(c: Config, ns: string) returns (pods: seq<Manifest>)
    ensures Keep(c, Objects(c, [ns])) == pods + OwnWorkers(c, ns)
    ensures if Recognisable(c) || !c.syncStart then pods == [] else |pods| == 1 && pods[0].load.Sync?
  {
    var host := SyncHost(c, [ns]);
    pods := Missed(c, [ns]);
    KeepObjects(c, [ns], Workloads(c, [ns], host));
    assert Workloads(c, [ns], host) == Deployments(c, ns, host, c.deps);
  }

  lemma {:induction false} GatherPieces(c: Config, nss: seq<string>, pieces: seq<seq<Manifest>>)
    requires |pieces| == |nss| && forall i :: 0 <= i < |nss| ==> pieces[i] == OwnWorkers(c, nss[i])
    ensures Concat(pieces) == Gathered(c, nss)
  {
    if nss != [] { GatherPieces(c, nss[..|nss| - 1], pieces[..|nss| - 1]); }
  }

  lemma {:induction false} LiveWhenRecognised(c: Config, nss: seq<string>)
    requires Recognisable(c) || !c.syncStart
    ensures Live(c, nss) == Gathered(c, nss)
  {
    forall i | 0 <= i < |nss| ensures Pieces(c, nss)[i] == OwnWorkers(c, nss[i]) {
      var pods := OneNamespace(c, nss[i]);
    }
    GatherPieces(c, nss, Pieces(c, nss));
  }
}
