/** A plan makes as many objects as it lists, each after what it needs; so does a live run, workers first of all. */
module PlanObjects {
  import opened Basics
  import opened Plan
  import opened PlanLive
  import opened PlanRun
  import opened PlanNames

  /** No two manifests of the list are for the same object. */
  ghost predicate DistinctKeys(ms: seq<Manifest>) {
    forall i, j :: 0 <= i < j < |ms| ==> KeyOf(ms[i]) != KeyOf(ms[j])
  }

  ghost predicate KeysApart(a: seq<Manifest>, b: seq<Manifest>) {
    forall i, j :: 0 <= i < |a| && 0 <= j < |b| ==> KeyOf(a[i]) != KeyOf(b[j])
  }

  lemma {:induction false} KeysAppend(a: seq<Manifest>, b: seq<Manifest>)
    requires DistinctKeys(a) && DistinctKeys(b) && KeysApart(a, b)
    ensures DistinctKeys(a + b)
  {
  }

  lemma {:induction false} ApartAppend(a: seq<Manifest>, b: seq<Manifest>, c: seq<Manifest>)
    requires KeysApart(a, c) && KeysApart(b, c)
    ensures KeysApart(a + b, c)
  {
  }

  ghost predicate KindsIn(ms: seq<Manifest>, kinds: set<Kind>) {
    forall i :: 0 <= i < |ms| ==> ms[i].kind in kinds
  }

  lemma {:induction false} ApartByKind(a: seq<Manifest>, k: set<Kind>, b: seq<Manifest>, l: set<Kind>)
    requires KindsIn(a, k) && KindsIn(b, l) && k !! l
    ensures KeysApart(a, b)
  {
  }

  /** All objects of the list are in these namespaces. */
  ghost predicate Inside(ms: seq<Manifest>, nss: seq<string>) {
    forall i :: 0 <= i < |ms| ==> ms[i].namespace in nss
  }

  // ---------------------------------------------------------------------------------------------
  // The lists of the plan

  lemma {:induction false} NamespacesAre(nss: seq<string>)
    ensures |Namespaces(nss)| == |nss|
    ensures forall i :: 0 <= i < |nss| ==> Namespaces(nss)[i] == Manifest(Namespace, "", Text(nss[i]), Plain)
  {
    if nss != [] { NamespacesAre(nss[..|nss| - 1]); }
  }

  lemma {:induction false} NamespacesDiffer(c: Config, nss: seq<string>)
    requires Distinct(nss)
    ensures DistinctKeys(Namespaces(nss) + SyncNamespaceObject(c, nss))
    ensures KindsIn(Namespaces(nss) + SyncNamespaceObject(c, nss), {Namespace})
  {
    NamespacesAre(nss);
    var names, own := Namespaces(nss), SyncNamespaceObject(c, nss);
    forall i | 0 <= i < |names| ensures KeyOf(names[i]).name == nss[i] {}
    KeysAppend(names, own);
  }

  lemma {:induction false} ConfigMapsDiffer(c: Config, nss: seq<string>)
    requires Distinct(nss)
    ensures DistinctKeys(AllConfigMaps(c, nss)) && Inside(AllConfigMaps(c, nss), nss)
    ensures KindsIn(AllConfigMaps(c, nss), {ConfigMap})
  {
    if nss != [] {
      var front, last := nss[..|nss| - 1], nss[|nss| - 1];
      ConfigMapsDiffer(c, front);
      assert last !in front;
      TwoConfigMaps(c, last);
      KeysAppend(AllConfigMaps(c, front), ConfigMaps(c, last));
    }
  }

  lemma {:induction false} TwoConfigMaps(c: Config, ns: string)
    ensures DistinctKeys(ConfigMaps(c, ns))
  {
    var two := ConfigMaps(c, ns);
    assert |KeyOf(two[0]).name| == |c.basename| + 17 && |KeyOf(two[1]).name| == |c.basename| + 15;
  }

  lemma {:induction false} SecretNamesDiffer(ns: string, dep: nat, k: nat, dep': nat, k': nat)
    requires Spell(SecretName(ns, dep, k)) == Spell(SecretName(ns, dep', k'))
    ensures dep == dep' && k == k'
  {
    SameNumbers("secret-" + ns, dep, k, "secret-" + ns, dep', k');
  }

  lemma {:induction false} SecretsAt(ns: string, dep: nat, n: nat)
    ensures |SecretsOf(ns, dep, n)| == n
    ensures forall k :: 0 <= k < n ==> SecretsOf(ns, dep, n)[k] == Manifest(Secret, ns, SecretName(ns, dep, k), Plain)
  {
    if n > 0 { SecretsAt(ns, dep, n - 1); }
  }

  /** The secrets of deployments from lo to below hi. */
  ghost predicate SecretsWithin(ms: seq<Manifest>, ns: string, lo: nat, hi: nat) {
    && DistinctKeys(ms)
    && forall i :: 0 <= i < |ms| ==> SecretWithin(ms[i], ns, lo, hi)
  }

  ghost predicate SecretWithin(m: Manifest, ns: string, lo: nat, hi: nat) {
    m.kind == Secret && m.namespace == ns && exists dep: nat, k: nat :: lo <= dep < hi && m.name == SecretName(ns, dep, k)
  }

  lemma {:induction false} SecretsDiffer(ns: string, dep: nat, n: nat)
    ensures SecretsWithin(SecretsOf(ns, dep, n), ns, dep, dep + 1)
  {
    var ms := SecretsOf(ns, dep, n);
    SecretsAt(ns, dep, n);
    forall i, j | 0 <= i < j < |ms| ensures KeyOf(ms[i]) != KeyOf(ms[j]) {
      if KeyOf(ms[i]) == KeyOf(ms[j]) { SecretNamesDiffer(ns, dep, i, dep, j); }
    }
  }

  lemma {:induction false} SecretsApart(a: Manifest, b: Manifest, ns: string, lo: nat, mid: nat, hi: nat)
    requires SecretWithin(a, ns, lo, mid) && SecretWithin(b, ns, mid, hi)
    ensures KeyOf(a) != KeyOf(b)
  {
    var d: nat, k: nat :| lo <= d < mid && a.name == SecretName(ns, d, k);
    var e: nat, l: nat :| mid <= e < hi && b.name == SecretName(ns, e, l);
    if KeyOf(a) == KeyOf(b) { SecretNamesDiffer(ns, d, k, e, l); }
  }

  lemma {:induction false} DeploymentSecretsDiffer(c: Config, ns: string, n: nat, lo: nat, hi: nat)
    requires lo == c.first && hi == c.first + n
    ensures SecretsWithin(DeploymentSecrets(c, ns, n), ns, lo, hi)
  {
    if n > 0 {
      var a, b := DeploymentSecrets(c, ns, n - 1), SecretsOf(ns, hi - 1, c.secrets);
      DeploymentSecretsDiffer(c, ns, n - 1, lo, hi - 1);
      SecretsDiffer(ns, hi - 1, c.secrets);
      forall i, j | 0 <= i < |a| && 0 <= j < |b| ensures KeyOf(a[i]) != KeyOf(b[j]) {
        SecretsApart(a[i], b[j], ns, lo, hi - 1, hi);
      }
      KeysAppend(a, b);
      forall i | 0 <= i < |a + b| ensures SecretWithin((a + b)[i], ns, lo, hi) {
        if i < |a| { assert SecretWithin(a[i], ns, lo, hi - 1); } else { assert SecretWithin(b[i - |a|], ns, hi - 1, hi); }
      }
      assert DeploymentSecrets(c, ns, n) == a + b;
    }
  }

  lemma {:induction false} AllSecretsDiffer(c: Config, nss: seq<string>)
    requires Distinct(nss)
    ensures DistinctKeys(AllSecrets(c, nss)) && Inside(AllSecrets(c, nss), nss) && KindsIn(AllSecrets(c, nss), {Secret})
  {
    if nss != [] {
      var front, last := nss[..|nss| - 1], nss[|nss| - 1];
      AllSecretsDiffer(c, front);
      DeploymentSecretsDiffer(c, last, c.deps, c.first, c.first + c.deps);
      var b := DeploymentSecrets(c, last, c.deps);
      assert last !in front;
      assert forall i :: 0 <= i < |b| ==> SecretWithin(b[i], last, c.first, c.first + c.deps);
      KeysAppend(AllSecrets(c, front), b);
    }
  }

  lemma {:induction false} AliasesDiffer(c: Config, nss: seq<string>, target: Host)
    requires Distinct(nss)
    ensures DistinctKeys(Aliases(c, nss, target)) && Inside(Aliases(c, nss, target), nss)
    ensures KindsIn(Aliases(c, nss, target), {Service})
    ensures forall i :: 0 <= i < |Aliases(c, nss, target)| ==>
              Aliases(c, nss, target)[i].namespace != target.namespace && Aliases(c, nss, target)[i].name == Text(SyncService(c))
  {
    if nss != [] {
      var front, last := nss[..|nss| - 1], nss[|nss| - 1];
      AliasesDiffer(c, front, target);
      assert last !in front;
    }
  }

  /** The parts of the sync objects. */
  function SyncMap(c: Config, nss: seq<string>): seq<Manifest> {
    var ns := SyncNamespace(c, nss);
    if ns in nss then [] else [Manifest(ConfigMap, ns, Text(c.basename + "-system-configmap"), Plain)]
  }

  lemma {:induction false} SyncObjectsDiffer(c: Config, nss: seq<string>)
    requires Distinct(nss)
    ensures DistinctKeys(SyncObjects(c, nss))
    ensures KindsIn(SyncObjects(c, nss), {ConfigMap, Service, Pod})
    ensures forall i :: 0 <= i < |SyncObjects(c, nss)| ==> SyncObjectOk(c, nss, SyncObjects(c, nss)[i])
  {
    var host := SyncHost(c, nss);
    var config, service, aliases := SyncMap(c, nss), [RealService(c, nss)], Aliases(c, nss, host);
    AliasesDiffer(c, nss, host);
    KeyOfSyncPod(c, nss);
    ApartByKind(config, {ConfigMap}, service, {Service});
    KeysAppend(config, service);
    ApartByKind(config + service, {ConfigMap, Service}, [SyncPod(c, nss)], {Pod});
    KeysAppend(config + service, [SyncPod(c, nss)]);
    ApartByKind(config, {ConfigMap}, aliases, {Service});
    ApartAppend(config, service, aliases);
    ApartByKind([SyncPod(c, nss)], {Pod}, aliases, {Service});
    ApartAppend(config + service, [SyncPod(c, nss)], aliases);
    KeysAppend(config + service + [SyncPod(c, nss)], aliases);
  }

  /** What tells a sync object from the others of its kind. */
  predicate SyncObjectOk(c: Config, nss: seq<string>, m: Manifest) {
    match m.kind
    case ConfigMap => m.namespace !in nss
    case Service => Spell(m.name) == SyncService(c)
    case Pod => m.name == OfPod(c.podPrefix, Text(SyncPodName(c)))
    case _ => false
  }

  // ---------------------------------------------------------------------------------------------
  // The whole plan

  lemma {:induction false} WorkloadKeysDiffer(c: Config, nss: seq<string>, host: Host)
    requires Distinct(nss)
    ensures DistinctKeys(Workloads(c, nss, host))
  {
    var ms := Workloads(c, nss, host);
    WorkloadsLaid(c, nss, host);
    forall i, j | 0 <= i < j < |ms| ensures KeyOf(ms[i]) != KeyOf(ms[j]) {
      if KeyOf(ms[i]) == KeyOf(ms[j]) { KeyTellsId(c, ms[i], ms[j]); }
    }
  }

  /** The sync pod's name ends in "sync", with or without the prefix; no worker's does. */
  lemma {:induction false} NotTheSyncPod(c: Config, m: Manifest)
    requires Placed(c, m) && m.kind == Pod
    ensures Spell(m.name) != Spell(OfPod(c.podPrefix, Text(SyncPodName(c))))
  {
    var p := PlaceOf(m.name);
    var stem := Dashes(c.podPrefix + Stem(m.namespace, c.workload, p.role)) + "-" + Decimal(p.dep);
    var worker := stem + "-" + Decimal(p.rep);
    SpelledPrefixed(c, m.namespace, p);
    EndsInDigit(stem, p.rep, worker);
    var s := worker + if p.cache then "-dc" else "";
    var name := c.podPrefix + SyncPodName(c);
    assert Spell(Text(SyncPodName(c))) == SyncPodName(c);
    var sync := Dashes(name);
    assert name[|name| - 1] == 'c' && name[|name| - 2] == 'n';
    assert sync[|sync| - 1] == 'c' && sync[|sync| - 2] == 'n';
    assert p.cache ==> s[|s| - 2] == 'd';
    assert !p.cache ==> s[|s| - 1] == worker[|worker| - 1];
  }

  lemma {:induction false} SyncApartFromWorker(c: Config, nss: seq<string>, s: Manifest, m: Manifest)
    requires SyncObjectOk(c, nss, s) && Placed(c, m) && m.kind !in {Namespace, ConfigMap, Secret}
    requires m.kind == Service ==> Spell(m.name) != SyncService(c)
    ensures KeyOf(s) != KeyOf(m)
  {
    if m.kind == Pod { NotTheSyncPod(c, m); }
  }

  lemma {:induction false} SyncApartFromWorkloads(c: Config, nss: seq<string>, sync: seq<Manifest>, ms: seq<Manifest>)
    requires Distinct(nss) && sync == SyncObjects(c, nss) && ms == Workloads(c, nss, SyncHost(c, nss))
    ensures KeysApart(sync, ms) && KindsIn(ms, {Service, Pod, Deployment, ReplicaSet, VirtualMachine})
  {
    var host := SyncHost(c, nss);
    SyncObjectsDiffer(c, nss);
    WorkloadsLaid(c, nss, host);
    WorkloadsReporting(c, nss, host);
    forall j | 0 <= j < |ms| ensures Placed(c, ms[j]) && ms[j].kind !in {Namespace, ConfigMap, Secret}
      && (ms[j].kind == Service ==> Spell(ms[j].name) != SyncService(c))
    {
      assert OfNamespace(c, ms[j].namespace, host, ms[j]);
    }
    forall i, j | 0 <= i < |sync| && 0 <= j < |ms| ensures KeyOf(sync[i]) != KeyOf(ms[j]) {
      SyncApartFromWorker(c, nss, sync[i], ms[j]);
    }
  }

  lemma {:induction false} SyncApartFromMaps(c: Config, nss: seq<string>, maps: seq<Manifest>, sync: seq<Manifest>)
    requires KindsIn(maps, {ConfigMap}) && Inside(maps, nss)
    requires forall i :: 0 <= i < |sync| ==> SyncObjectOk(c, nss, sync[i])
    ensures KeysApart(maps, sync)
  {
  }

  /** For distinct namespaces no two manifests of a plan are for the same object. */
  lemma {:induction false} ObjectsDiffer(c: Config, nss: seq<string>)
    requires Distinct(nss)
    ensures DistinctKeys(Objects(c, nss))
  {
    var names := Namespaces(nss) + SyncNamespaceObject(c, nss);
    var maps, secrets := AllConfigMaps(c, nss), AllSecrets(c, nss);
    var sync := if c.syncStart then SyncObjects(c, nss) else [];
    var ms := Workloads(c, nss, SyncHost(c, nss));
    NamespacesDiffer(c, nss);
    ConfigMapsDiffer(c, nss);
    AllSecretsDiffer(c, nss);
    SyncObjectsDiffer(c, nss);
    WorkloadKeysDiffer(c, nss, SyncHost(c, nss));
    SyncApartFromWorkloads(c, nss, SyncObjects(c, nss), ms);
    SyncApartFromMaps(c, nss, maps, sync);
    FiveLists(names, maps, secrets, sync, ms);
  }

  lemma {:induction false} FiveLists(names: seq<Manifest>, maps: seq<Manifest>, secrets: seq<Manifest>, sync: seq<Manifest>,
                                     ms: seq<Manifest>)
    requires DistinctKeys(names) && DistinctKeys(maps) && DistinctKeys(secrets) && DistinctKeys(sync) && DistinctKeys(ms)
    requires KindsIn(names, {Namespace}) && KindsIn(maps, {ConfigMap}) && KindsIn(secrets, {Secret})
    requires KindsIn(sync, {ConfigMap, Service, Pod})
    requires KindsIn(ms, {Service, Pod, Deployment, ReplicaSet, VirtualMachine})
    requires KeysApart(maps, sync) && KeysApart(sync, ms)
    ensures DistinctKeys(names + maps + secrets + sync + ms)
  {
    var a, b := names + maps, names + maps + secrets;
    ApartByKind(names, {Namespace}, maps, {ConfigMap});
    KeysAppend(names, maps);
    ApartByKind(a, {Namespace, ConfigMap}, secrets, {Secret});
    KeysAppend(a, secrets);
    ApartByKind(names, {Namespace}, sync, {ConfigMap, Service, Pod});
    ApartAppend(names, maps, sync);
    ApartByKind(secrets, {Secret}, sync, {ConfigMap, Service, Pod});
    ApartAppend(a, secrets, sync);
    KeysAppend(b, sync);
    ApartByKind(b, {Namespace, ConfigMap, Secret}, ms, {Service, Pod, Deployment, ReplicaSet, VirtualMachine});
    ApartAppend(b, sync, ms);
    KeysAppend(b + sync, ms);
  }

  // ---------------------------------------------------------------------------------------------
  // As many objects as manifests

  /** The objects the cluster has after all manifests of the list were applied. */
  ghost function Cluster(ms: seq<Manifest>): set<Key> {
    if ms == [] then {} else Cluster(ms[..|ms| - 1]) + {KeyOf(ms[|ms| - 1])}
  }

  lemma {:induction false} InCluster(ms: seq<Manifest>, k: Key)
    ensures k in Cluster(ms) <==> exists i :: 0 <= i < |ms| && KeyOf(ms[i]) == k
  {
    if ms != [] { InCluster(ms[..|ms| - 1], k); }
  }

  lemma {:induction false} ClusterSize(ms: seq<Manifest>)
    requires DistinctKeys(ms)
    ensures |Cluster(ms)| == |ms|
  {
    if ms != [] {
      var front := ms[..|ms| - 1];
      ClusterSize(front);
      InCluster(front, KeyOf(ms[|ms| - 1]));
    }
  }

  function WorkersIn(ms: seq<Manifest>): (workers: seq<Manifest>)
    ensures forall m :: m in workers <==> m in ms && m.load.Worker?
  {
    if ms == [] then []
    else
      assert ms == ms[..|ms| - 1] + [ms[|ms| - 1]];
      WorkersIn(ms[..|ms| - 1]) + if ms[|ms| - 1].load.Worker? then [ms[|ms| - 1]] else []
  }

  lemma {:induction false} WorkersDiffer(ms: seq<Manifest>)
    requires DistinctKeys(ms)
    ensures DistinctKeys(WorkersIn(ms))
  {
    if ms != [] {
      var front, last := ms[..|ms| - 1], ms[|ms| - 1];
      WorkersDiffer(front);
      var workers := WorkersIn(front);
      forall i | 0 <= i < |workers| ensures KeyOf(workers[i]) != KeyOf(last) {
        assert workers[i] in front;
        var k :| 0 <= k < |front| && front[k] == workers[i];
        assert ms[k] == workers[i];
      }
    }
  }

  /** Applying a plan gives as many objects as it lists, and as many worker objects as it lists workers. */
  lemma {:induction false} AsManyObjects(c: Config, nss: seq<string>)
    requires Distinct(nss)
    ensures |Cluster(Objects(c, nss))| == |Objects(c, nss)|
    ensures |Cluster(WorkersIn(Objects(c, nss)))| == |WorkersIn(Objects(c, nss))|
  {
    ObjectsDiffer(c, nss);
    ClusterSize(Objects(c, nss));
    WorkersDiffer(Objects(c, nss));
    ClusterSize(WorkersIn(Objects(c, nss)));
  }

  // ---------------------------------------------------------------------------------------------
  // The live run

  lemma {:induction false} KeepLaid(c: Config, ms: seq<Manifest>, ns: string, lo: nat, hi: nat)
    requires OfDeployments(c, ms, ns, lo, hi)
    ensures OfDeployments(c, Keep(c, ms), ns, lo, hi)
  {
    if ms != [] {
      var front, last := ms[..|ms| - 1], ms[|ms| - 1];
      KeepLaid(c, front, ns, lo, hi);
      var kept := Keep(c, front);
      forall i | 0 <= i < |kept| ensures IdOf(kept[i]) != IdOf(last) {
        KeepMember(c, front, kept[i]);
        var k :| 0 <= k < |front| && front[k] == kept[i];
        assert ms[k] == kept[i];
      }
    }
  }

  /** The workers of all namespaces, each namespace's plan filtered. */
  lemma {:induction false} GatheredLaid(c: Config, nss: seq<string>)
    requires Distinct(nss)
    ensures Laid(c, Gathered(c, nss)) && Inside(Gathered(c, nss), nss)
  {
    if nss != [] {
      var front, last := nss[..|nss| - 1], nss[|nss| - 1];
      GatheredLaid(c, front);
      DeploymentsLaid(c, last, SyncHost(c, [last]), c.deps, c.first, c.first + c.deps);
      KeepLaid(c, Deployments(c, last, SyncHost(c, [last]), c.deps), last, c.first, c.first + c.deps);
      assert last !in front;
      LaidAppend(c, Gathered(c, front), OwnWorkers(c, last));
    }
  }

  /** What is not a sync pod. */
  function NotSync(ms: seq<Manifest>): seq<Manifest> {
    if ms == [] then [] else NotSync(ms[..|ms| - 1]) + if ms[|ms| - 1].load.Sync? then [] else [ms[|ms| - 1]]
  }

  lemma {:induction false} NotSyncAppend(a: seq<Manifest>, b: seq<Manifest>)
    ensures NotSync(a + b) == NotSync(a) + NotSync(b)
  {
    if b == [] {
      assert a + b == a;
    } else {
      assert (a + b)[..|a + b| - 1] == a + b[..|b| - 1];
      NotSyncAppend(a, b[..|b| - 1]);
    }
  }

  lemma {:induction false} AllNotSync(ms: seq<Manifest>)
    requires NoSync(ms)
    ensures NotSync(ms) == ms
  {
    if ms != [] {
      AllNotSync(ms[..|ms| - 1]);
      assert ms == ms[..|ms| - 1] + [ms[|ms| - 1]];
    }
  }

  lemma {:induction false} OwnWithoutSync(c: Config, ns: string)
    ensures NoSync(OwnWorkers(c, ns))
  {
    var host := SyncHost(c, [ns]);
    DeploymentsOfNamespace(c, ns, host, c.deps);
    KeepOfNamespace(c, ns, host, Deployments(c, ns, host, c.deps));
  }

  lemma {:induction false} PieceWorkers(c: Config, ns: string)
    ensures NotSync(Keep(c, Objects(c, [ns]))) == OwnWorkers(c, ns)
  {
    var pods := OneNamespace(c, ns);
    OwnWithoutSync(c, ns);
    AllNotSync(OwnWorkers(c, ns));
    NotSyncAppend(pods, OwnWorkers(c, ns));
    if pods != [] { assert pods == [pods[0]] && pods[..0] == []; }
  }

  lemma {:induction false} ConcatWorkers(c: Config, nss: seq<string>, pieces: seq<seq<Manifest>>)
    requires |pieces| == |nss| && forall i :: 0 <= i < |nss| ==> NotSync(pieces[i]) == OwnWorkers(c, nss[i])
    ensures NotSync(Concat(pieces)) == Gathered(c, nss)
  {
    if nss != [] {
      var n := |nss| - 1;
      ConcatWorkers(c, nss[..n], pieces[..n]);
      NotSyncAppend(Concat(pieces[..n]), pieces[n]);
    }
  }

  /** Sync pods aside, no two manifests of a live run are for the same object; so it starts as many workers as it
      submits. */
  lemma {:induction false} LiveWorkersDiffer(c: Config, nss: seq<string>)
    requires Distinct(nss)
    ensures DistinctKeys(NotSync(Live(c, nss)))
    ensures |Cluster(NotSync(Live(c, nss)))| == |NotSync(Live(c, nss))|
  {
    var pieces, ms := Pieces(c, nss), Gathered(c, nss);
    forall i | 0 <= i < |nss| ensures NotSync(pieces[i]) == OwnWorkers(c, nss[i]) { PieceWorkers(c, nss[i]); }
    ConcatWorkers(c, nss, pieces);
    GatheredLaid(c, nss);
    forall i, j | 0 <= i < j < |ms| ensures KeyOf(ms[i]) != KeyOf(ms[j]) {
      if KeyOf(ms[i]) == KeyOf(ms[j]) { KeyTellsId(c, ms[i], ms[j]); }
    }
    ClusterSize(ms);
  }

  // ---------------------------------------------------------------------------------------------
  // What the workloads are

  /** The object a worker becomes: a server is always a pod unless it is a machine, everything else what is configured. */
  ghost predicate WorkerOk(c: Config, m: Manifest, host: Host) {
    var p, ns := PlaceOf(m.name), m.namespace;
    var name := Numbered(OfDeployment(ns, c.workload, p.role, p.dep), p.rep);
    match c.deployAs
    case AsVm => m == Manifest(VirtualMachine, ns, name, Worker(p.role, 1, host))
    case AsPod => m == Manifest(Pod, ns, OfPod(c.podPrefix, name), Worker(p.role, c.containers, host))
    case AsDeployment =>
      m == Manifest(if p.role.Server? then Pod else Deployment, ns, OfPod(c.podPrefix, name), Worker(p.role, c.containers, host))
    case AsReplicaSet =>
      m == Manifest(if p.role.Server? then Pod else ReplicaSet, ns, OfPod(c.podPrefix, name), Worker(p.role, c.containers, host))
  }

  /** The roles of a deployment and their replicas. */
  predicate ReplicaOk(c: Config, role: Role, rep: nat) {
    match role
    case Server => c.clientServer && rep == 1
    case Client => c.clientServer && 1 <= rep <= c.replicas
    case Single => !c.clientServer && 1 <= rep <= c.replicas
  }

  /** An object that a deployment of the namespace should have. */
  ghost predicate DeploymentOk(c: Config, m: Manifest, host: Host) {
    var p, ns := PlaceOf(m.name), m.namespace;
    match m.load
    case Plain =>
      c.clientServer && c.listens && m == Manifest(Service, ns, Numbered(OfDeployment(ns, c.workload, Server, p.dep), 1), Plain)
    case DropCache(_) =>
      c.dropCache && 1 <= p.rep <= c.replicas &&
      m == Manifest(Pod, ns, OfPod(c.podPrefix, OfCache(Numbered(OfDeployment(ns, c.workload, Single, p.dep), p.rep))), DropCache(host))
    case Worker(_, _, _) => ReplicaOk(c, p.role, p.rep) && WorkerOk(c, m, host)
    case _ => false
  }

  lemma {:induction false} WorkerMember(c: Config, ns: string, role: Role, dep: nat, host: Host, n: nat, m: Manifest)
    ensures m in WorkerObjects(c, ns, role, dep, host, n) <==>
            1 <= PlaceOf(m.name).rep <= n && m == WorkerObject(c, ns, role, dep, host, PlaceOf(m.name).rep)
  {
    if n > 0 {
      WorkerMember(c, ns, role, dep, host, n - 1, m);
      assert PlaceOf(WorkerObject(c, ns, role, dep, host, n).name) == Place(false, role, dep, n);
    }
  }

  lemma {:induction false} CacheMember(c: Config, ns: string, dep: nat, host: Host, n: nat, m: Manifest)
    ensures m in DropCachePods(c, ns, dep, host, n) <==>
            1 <= PlaceOf(m.name).rep <= n && m == DropCachePod(c, ns, dep, host, PlaceOf(m.name).rep)
  {
    if n > 0 {
      CacheMember(c, ns, dep, host, n - 1, m);
      CachePlace(c, ns, dep, host, n);
    }
  }

  lemma {:induction false} WorkerIs(c: Config, ns: string, role: Role, dep: nat, host: Host, m: Manifest)
    ensures m == WorkerObject(c, ns, role, dep, host, PlaceOf(m.name).rep) <==>
            m.namespace == ns && PlaceOf(m.name).role == role && PlaceOf(m.name).dep == dep && WorkerOk(c, m, host)
  {
    var p := PlaceOf(m.name);
    assert PlaceOf(WorkerObject(c, ns, role, dep, host, p.rep).name) == Place(false, role, dep, p.rep);
  }

  lemma {:induction false} RolesMember(c: Config, ns: string, dep: nat, host: Host, m: Manifest)
    ensures m in Workers(c, ns, dep, host) <==>
            var p := PlaceOf(m.name);
            m.namespace == ns && p.dep == dep && ReplicaOk(c, p.role, p.rep) && WorkerOk(c, m, host)
  {
    WorkerMember(c, ns, Server, dep, host, 1, m);
    WorkerMember(c, ns, Client, dep, host, c.replicas, m);
    WorkerMember(c, ns, Single, dep, host, c.replicas, m);
    WorkerIs(c, ns, Server, dep, host, m);
    WorkerIs(c, ns, Client, dep, host, m);
    WorkerIs(c, ns, Single, dep, host, m);
  }

  lemma {:induction false} CachesMember(c: Config, ns: string, dep: nat, host: Host, m: Manifest)
    ensures m in Caches(c, ns, dep, host) <==>
            m.load.DropCache? && m.namespace == ns && PlaceOf(m.name).dep == dep && DeploymentOk(c, m, host)
  {
    CacheMember(c, ns, dep, host, c.replicas, m);
    CachePlace(c, ns, dep, host, PlaceOf(m.name).rep);
  }

  /** A deployment consists of exactly these objects: the drop-cache pods, the service and the workers it should have. */
  lemma {:induction false} DeploymentExactly(c: Config, ns: string, dep: nat, host: Host, m: Manifest)
    ensures m in DeploymentObjects(c, ns, dep, host) <==>
            m.namespace == ns && PlaceOf(m.name).dep == dep && DeploymentOk(c, m, host)
  {
    CachesMember(c, ns, dep, host, m);
    RolesMember(c, ns, dep, host, m);
    assert m in ServerServices(c, ns, dep) <==>
           m.load.Plain? && m.namespace == ns && PlaceOf(m.name).dep == dep && DeploymentOk(c, m, host);
  }

  // ---------------------------------------------------------------------------------------------
  // Created in order

  lemma {:induction false} MapsOf(c: Config, nss: seq<string>, ns: string)
    requires ns in nss
    ensures forall m :: m in ConfigMaps(c, ns) ==> m in AllConfigMaps(c, nss)
  {
    if ns != nss[|nss| - 1] { MapsOf(c, nss[..|nss| - 1], ns); }
  }

  lemma {:induction false} SecretOf(c: Config, ns: string, n: nat, dep: nat, k: nat)
    requires c.first <= dep < c.first + n && k < c.secrets
    ensures Manifest(Secret, ns, SecretName(ns, dep, k), Plain) in DeploymentSecrets(c, ns, n)
  {
    if dep == c.first + n - 1 {
      SecretsAt(ns, dep, c.secrets);
      assert SecretsOf(ns, dep, c.secrets)[k] in SecretsOf(ns, dep, c.secrets);
    } else {
      SecretOf(c, ns, n - 1, dep, k);
    }
  }

  lemma {:induction false} SecretIn(c: Config, nss: seq<string>, ns: string, dep: nat, k: nat)
    requires ns in nss && c.first <= dep < c.first + c.deps && k < c.secrets
    ensures Manifest(Secret, ns, SecretName(ns, dep, k), Plain) in AllSecrets(c, nss)
  {
    if ns == nss[|nss| - 1] { SecretOf(c, ns, c.deps, dep, k); } else { SecretIn(c, nss[..|nss| - 1], ns, dep, k); }
  }

  lemma {:induction false} DeploymentInRange(c: Config, nss: seq<string>, host: Host)
    ensures forall i :: 0 <= i < |Workloads(c, nss, host)| ==>
              c.first <= PlaceOf(Workloads(c, nss, host)[i].name).dep < c.first + c.deps
  {
    if nss != [] {
      DeploymentInRange(c, nss[..|nss| - 1], host);
      DeploymentsLaid(c, nss[|nss| - 1], host, c.deps, c.first, c.first + c.deps);
    }
  }

  /** What must be there before an object of a workload. */
  ghost predicate Prepared(c: Config, nss: seq<string>, front: seq<Manifest>, m: Manifest) {
    var dep := PlaceOf(m.name).dep;
    && Manifest(Namespace, "", Text(m.namespace), Plain) in front
    && Manifest(ConfigMap, m.namespace, Text(c.basename + "-system-configmap"), Plain) in front
    && Manifest(ConfigMap, m.namespace, Text(c.basename + "-user-configmap"), Plain) in front
    && (forall k: nat :: k < c.secrets ==> Manifest(Secret, m.namespace, SecretName(m.namespace, dep, k), Plain) in front)
    && (c.syncStart ==> RealService(c, nss) in front && SyncPod(c, nss) in front)
  }

  lemma {:induction false} NamespaceIn(nss: seq<string>, ns: string)
    requires ns in nss
    ensures Manifest(Namespace, "", Text(ns), Plain) in Namespaces(nss)
  {
    NamespacesAre(nss);
    var i :| 0 <= i < |nss| && nss[i] == ns;
    assert Namespaces(nss)[i] in Namespaces(nss);
  }

  /** The workloads come last, and for each of their objects the namespace, its configuration maps, the secrets of the
      deployment and the sync pod with its service come first. */
  lemma {:induction false} WorkloadsComeLast(c: Config, nss: seq<string>) returns (front: seq<Manifest>)
    ensures Objects(c, nss) == front + Workloads(c, nss, SyncHost(c, nss))
    ensures forall m :: m in Workloads(c, nss, SyncHost(c, nss)) ==> Prepared(c, nss, front, m)
  {
    var ms := Workloads(c, nss, SyncHost(c, nss));
    front := Namespaces(nss) + SyncNamespaceObject(c, nss) + AllConfigMaps(c, nss) + AllSecrets(c, nss)
             + (if c.syncStart then SyncObjects(c, nss) else []);
    WorkloadsReporting(c, nss, SyncHost(c, nss));
    DeploymentInRange(c, nss, SyncHost(c, nss));
    forall m | m in ms ensures Prepared(c, nss, front, m) {
      var i :| 0 <= i < |ms| && ms[i] == m;
      NamespaceIn(nss, m.namespace);
      MapsOf(c, nss, m.namespace);
      assert ConfigMaps(c, m.namespace)[0] in ConfigMaps(c, m.namespace);
      assert ConfigMaps(c, m.namespace)[1] in ConfigMaps(c, m.namespace);
      forall k: nat | k < c.secrets
        ensures Manifest(Secret, m.namespace, SecretName(m.namespace, PlaceOf(m.name).dep, k), Plain) in front
      {
        SecretIn(c, nss, m.namespace, PlaceOf(m.name).dep, k);
      }
    }
  }
}
