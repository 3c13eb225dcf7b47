/** What a live run creates, compared with the plan: the same workers, one sync pod, hosts that resolve. */
module PlanRun {
  import opened Basics
  import opened Plan
  import opened PlanCounts
  import opened PlanLive

  // ---------------------------------------------------------------------------------------------
  // What the objects of one namespace look like

  lemma {:induction false} NumberedEnd(base: Name, n: nat)
    ensures Spell(Numbered(base, n)) != [] && var s := Spell(Numbered(base, n)); '0' <= s[|s| - 1] <= '9'
  {
  }

  /** No object of a workload has the name of the sync pod: its name ends in a digit or in "-dc". */
  lemma {:induction false} WorkerNames(c: Config, prefix: string, base: Name, n: nat)
    ensures Spell(Numbered(base, n)) != SyncPodName(c)
    ensures Spell(OfPod(prefix, Numbered(base, n))) != SyncPodName(c)
    ensures Spell(OfPod(prefix, OfCache(Numbered(base, n)))) != SyncPodName(c)
  {
    var s, sync := Spell(Numbered(base, n)), SyncPodName(c);
    NumberedEnd(base, n);
    assert sync[|sync| - 1] == 'c' && sync[|sync| - 3] == 'y';
    var t := PodName(prefix, s);
    assert t[|t| - 1] == s[|s| - 1];
    var cache := s + "-dc";
    var u := PodName(prefix, cache);
    assert cache[|cache| - 3] == '-' && u[|u| - 3] == '-';
    assert Spell(OfCache(Numbered(base, n))) == cache;
  }

  /** A service of the workload does not have the name of the sync service. */
  lemma {:induction false} ServiceNames(c: Config, base: Name)
    ensures Spell(Numbered(base, 1)) != SyncService(c)
  {
    var s, sync := Spell(Numbered(base, 1)), SyncService(c);
    assert Decimal(1) == "1";
    assert s[|s| - 1] == '1' && sync[|sync| - 1] == '0';
  }

  /** An object of a deployment: a service, or something that reports to the given host. */
  predicate OfNamespace(c: Config, ns: string, host: Host, m: Manifest) {
    && m.namespace == ns && Spell(m.name) != SyncPodName(c)
    && match m.load
       case Plain => m.kind == Service && Spell(m.name) != SyncService(c)
       case DropCache(h) => h == host && !Infrastructure(m.kind)
       case Worker(_, _, h) => h == host && !Infrastructure(m.kind)
       case _ => false
  }

  ghost predicate AllOfNamespace(c: Config, ns: string, host: Host, ms: seq<Manifest>) {
    forall i :: 0 <= i < |ms| ==> OfNamespace(c, ns, host, ms[i])
  }

  lemma {:induction false} WorkersOfNamespace(c: Config, ns: string, role: Role, dep: nat, host: Host, n: nat)
    ensures AllOfNamespace(c, ns, host, WorkerObjects(c, ns, role, dep, host, n))
  {
    if n > 0 {
      WorkersOfNamespace(c, ns, role, dep, host, n - 1);
      WorkerNames(c, c.podPrefix, OfDeployment(ns, c.workload, role, dep), n);
      assert OfNamespace(c, ns, host, WorkerObject(c, ns, role, dep, host, n));
    }
  }

  lemma {:induction false} DropCacheOfNamespace(c: Config, ns: string, dep: nat, host: Host, n: nat)
    ensures AllOfNamespace(c, ns, host, DropCachePods(c, ns, dep, host, n))
  {
    if n > 0 {
      DropCacheOfNamespace(c, ns, dep, host, n - 1);
      WorkerNames(c, c.podPrefix, OfDeployment(ns, c.workload, Single, dep), n);
      assert OfNamespace(c, ns, host, DropCachePod(c, ns, dep, host, n));
    }
  }

  lemma {:induction false} ServicesOfNamespace(c: Config, ns: string, dep: nat, host: Host)
    ensures AllOfNamespace(c, ns, host, ServerServices(c, ns, dep))
  {
    WorkerNames(c, "", OfDeployment(ns, c.workload, Server, dep), 1);
    ServiceNames(c, OfDeployment(ns, c.workload, Server, dep));
  }

  lemma {:induction false} DeploymentOfNamespace(c: Config, ns: string, dep: nat, host: Host)
    ensures AllOfNamespace(c, ns, host, DeploymentObjects(c, ns, dep, host))
  {
    DropCacheOfNamespace(c, ns, dep, host, c.replicas);
    ServicesOfNamespace(c, ns, dep, host);
    WorkersOfNamespace(c, ns, Server, dep, host, 1);
    WorkersOfNamespace(c, ns, Client, dep, host, c.replicas);
    WorkersOfNamespace(c, ns, Single, dep, host, c.replicas);
  }

  lemma {:induction false} DeploymentsOfNamespace(c: Config, ns: string, host: Host, n: nat)
    ensures AllOfNamespace(c, ns, host, Deployments(c, ns, host, n))
  {
    if n > 0 {
      DeploymentsOfNamespace(c, ns, host, n - 1);
      var piece, dep := DeploymentsStep(c, ns, host, n);
      DeploymentOfNamespace(c, ns, dep, host);
    }
  }

  /** The filter keeps what is not a service. */
  lemma {:induction false} KeptOfNamespace(c: Config, ns: string, host: Host, m: Manifest)
    requires OfNamespace(c, ns, host, m)
    ensures Kept(c, m) <==> m.kind != Service
  {
  }

  /** Of the objects of a deployment the filter drops the services and nothing else. */
  lemma {:induction false} OnlyServicesDropped(c: Config, ns: string, dep: nat, host: Host, m: Manifest)
    requires m in DeploymentObjects(c, ns, dep, host)
    ensures Kept(c, m) <==> m.kind != Service
    ensures m.kind == Service <==> m.load == Plain
  {
    DeploymentOfNamespace(c, ns, dep, host);
    var ms := DeploymentObjects(c, ns, dep, host);
    var k :| 0 <= k < |ms| && ms[k] == m;
    KeptOfNamespace(c, ns, host, ms[k]);
  }

  lemma {:induction false} KeepOfNamespace(c: Config, ns: string, host: Host, ms: seq<Manifest>)
    requires AllOfNamespace(c, ns, host, ms)
    ensures AllOfNamespace(c, ns, host, Keep(c, ms))
    ensures forall i :: 0 <= i < |Keep(c, ms)| ==> Kept(c, Keep(c, ms)[i])
  {
    if ms != [] { KeepOfNamespace(c, ns, host, ms[..|ms| - 1]); }
  }

  // ---------------------------------------------------------------------------------------------
  // Conservation: no client is lost

  lemma {:induction false} KeepTotal(what: Measure, c: Config, ns: string, host: Host, ms: seq<Manifest>)
    requires AllOfNamespace(c, ns, host, ms)
    ensures Total(what, Keep(c, ms)) == Total(what, ms)
  {
    if ms != [] {
      var front, last := ms[..|ms| - 1], ms[|ms| - 1];
      KeepTotal(what, c, ns, host, front);
      KeptOfNamespace(c, ns, host, last);
      if Kept(c, last) {
        TotalStep(what, Keep(c, front), last);
      } else {
        assert Weigh(what, last.load) == 0;
        assert Keep(c, ms) == Keep(c, front);
      }
    }
  }

  lemma {:induction false} OwnTotal(what: Measure, c: Config, ns: string, x: nat)
    requires x == PerDeployment(what, c)
    ensures Total(what, OwnWorkers(c, ns)) == c.deps * x
  {
    var host := SyncHost(c, [ns]);
    DeploymentsOfNamespace(c, ns, host, c.deps);
    KeepTotal(what, c, ns, host, Deployments(c, ns, host, c.deps));
    forall n: string, dep: nat ensures Total(what, DeploymentObjects(c, n, dep, host)) == x {
      TotalDeployment(what, c, n, dep, host);
    }
    TotalDeployments(what, c, ns, host, c.deps, x);
  }

  lemma {:induction false} ConcatTotal(what: Measure, pieces: seq<seq<Manifest>>, y: nat)
    requires forall i :: 0 <= i < |pieces| ==> Total(what, pieces[i]) == y
    ensures Total(what, Concat(pieces)) == |pieces| * y
  {
    if pieces != [] {
      var front := pieces[..|pieces| - 1];
      ConcatTotal(what, front, y);
      TotalAppend(what, Concat(front), pieces[|pieces| - 1]);
      Distribute(|pieces|, y);
    }
  }

  lemma {:induction false} PieceTotal(what: Measure, c: Config, ns: string, x: nat)
    requires x == PerDeployment(what, c)
    ensures Total(what, Keep(c, Objects(c, [ns]))) == c.deps * x
  {
    var pods := OneNamespace(c, ns);
    OwnTotal(what, c, ns, x);
    IdleTotal(what, pods);
    TotalAppend(what, pods, OwnWorkers(c, ns));
  }

  /** A live run starts exactly the containers and processes of the whole plan. */
  lemma {:induction false} LiveCounts(what: Measure, c: Config, nss: seq<string>)
    ensures Total(what, Live(c, nss)) == Total(what, Objects(c, nss))
  {
    var x := PerDeployment(what, c);
    var pieces := Pieces(c, nss);
    forall i | 0 <= i < |pieces| ensures Total(what, pieces[i]) == c.deps * x {
      PieceTotal(what, c, nss[i], x);
    }
    ConcatTotal(what, pieces, c.deps * x);
    TotalObjects(what, c, nss, x);
  }

  // ---------------------------------------------------------------------------------------------
  // Sync pods

  function SyncPods(ms: seq<Manifest>): nat {
    if ms == [] then 0 else SyncPods(ms[..|ms| - 1]) + if ms[|ms| - 1].load.Sync? then 1 else 0
  }

  lemma {:induction false} SyncPodsAppend(a: seq<Manifest>, b: seq<Manifest>)
    ensures SyncPods(a + b) == SyncPods(a) + SyncPods(b)
  {
    if b == [] {
      assert a + b == a;
    } else {
      assert (a + b)[..|a + b| - 1] == a + b[..|b| - 1];
      SyncPodsAppend(a, b[..|b| - 1]);
    }
  }

  /** No object of the list is a sync pod. */
  ghost predicate NoSync(ms: seq<Manifest>) {
    forall i :: 0 <= i < |ms| ==> !ms[i].load.Sync?
  }

  lemma {:induction false} NoSyncPods(ms: seq<Manifest>)
    requires NoSync(ms)
    ensures SyncPods(ms) == 0
  {
    if ms != [] { NoSyncPods(ms[..|ms| - 1]); }
  }

  lemma {:induction false} OwnHasNoSync(c: Config, ns: string)
    ensures SyncPods(OwnWorkers(c, ns)) == 0
  {
    var host := SyncHost(c, [ns]);
    DeploymentsOfNamespace(c, ns, host, c.deps);
    KeepOfNamespace(c, ns, host, Deployments(c, ns, host, c.deps));
    NoSyncPods(OwnWorkers(c, ns));
  }

  lemma {:induction false} ConcatSyncPods(pieces: seq<seq<Manifest>>, one: nat)
    requires one <= 1 && forall i :: 0 <= i < |pieces| ==> SyncPods(pieces[i]) == one
    ensures SyncPods(Concat(pieces)) == if one == 1 then |pieces| else 0
  {
    if pieces != [] {
      ConcatSyncPods(pieces[..|pieces| - 1], one);
      SyncPodsAppend(Concat(pieces[..|pieces| - 1]), pieces[|pieces| - 1]);
    }
  }

  lemma {:induction false} OneNamespaceSyncPods(c: Config, ns: string)
    ensures SyncPods(Keep(c, Objects(c, [ns]))) == if c.syncStart && !Recognisable(c) then 1 else 0
  {
    var pods := OneNamespace(c, ns);
    OwnHasNoSync(c, ns);
    SyncPodsAppend(pods, OwnWorkers(c, ns));
    if pods != [] { assert pods == [pods[0]]; assert SyncPods(pods) == 1 by { assert pods[..0] == []; } }
  }

  /** The sync pods among the objects created for the workers. */
  lemma {:induction false} LiveSyncPods(c: Config, nss: seq<string>)
    ensures SyncPods(Live(c, nss)) == if c.syncStart && !Recognisable(c) then |nss| else 0
  {
    var pieces, one := Pieces(c, nss), if c.syncStart && !Recognisable(c) then 1 else 0;
    forall i | 0 <= i < |pieces| ensures SyncPods(pieces[i]) == one {
      OneNamespaceSyncPods(c, nss[i]);
    }
    ConcatSyncPods(pieces, one);
  }

  // ---------------------------------------------------------------------------------------------
  // Decomposition

  lemma {:induction false} LocalSyncPods(c: Config, ms: seq<Manifest>)
    ensures SyncPods(Local(c, ms)) == SyncPods(ms)
  {
    if ms != [] {
      LocalSyncPods(c, ms[..|ms| - 1]);
      var there := At(ms[|ms| - 1], SyncHost(c, [ms[|ms| - 1].namespace]));
      assert (Local(c, ms[..|ms| - 1]) + [there])[..|Local(c, ms[..|ms| - 1])|] == Local(c, ms[..|ms| - 1]);
    }
  }

  /** Every object reports to the given host, if to any. */
  ghost predicate AllReporting(c: Config, nss: seq<string>, host: Host, ms: seq<Manifest>) {
    forall i :: 0 <= i < |ms| ==> ms[i].namespace in nss && OfNamespace(c, ms[i].namespace, host, ms[i])
  }

  lemma {:induction false} WorkloadsReporting(c: Config, nss: seq<string>, host: Host)
    ensures AllReporting(c, nss, host, Workloads(c, nss, host))
  {
    if nss != [] {
      WorkloadsReporting(c, nss[..|nss| - 1], host);
      DeploymentsOfNamespace(c, nss[|nss| - 1], host, c.deps);
    }
  }

  lemma {:induction false} KeepReporting(c: Config, nss: seq<string>, host: Host, ms: seq<Manifest>)
    requires AllReporting(c, nss, host, ms)
    ensures AllReporting(c, nss, host, Keep(c, ms))
  {
    if ms != [] { KeepReporting(c, nss, host, ms[..|ms| - 1]); }
  }

  /** What the filter leaves of the whole plan. */
  lemma {:induction false} WholePlanKept(c: Config, nss: seq<string>) returns (pods: seq<Manifest>)
    ensures Keep(c, Objects(c, nss)) == pods + Keep(c, Workloads(c, nss, SyncHost(c, nss)))
    ensures if Recognisable(c) || !c.syncStart then pods == [] else |pods| == 1 && pods[0].load.Sync?
  {
    pods := Missed(c, nss);
    KeepObjects(c, nss, Workloads(c, nss, SyncHost(c, nss)));
  }

  lemma {:induction false} WholePlanRecognised(c: Config, nss: seq<string>)
    requires Recognisable(c) || !c.syncStart
    ensures Keep(c, Objects(c, nss)) == Keep(c, Workloads(c, nss, SyncHost(c, nss)))
  {
    var pods := WholePlanKept(c, nss);
    NothingBefore(pods, Keep(c, Workloads(c, nss, SyncHost(c, nss))));
  }

  lemma {:induction false} NothingBefore(pods: seq<Manifest>, rest: seq<Manifest>)
    requires pods == []
    ensures pods + rest == rest
  {
  }

  lemma {:induction false} WholePlanSyncPods(c: Config, nss: seq<string>)
    ensures SyncPods(Local(c, Keep(c, Objects(c, nss)))) == if c.syncStart && !Recognisable(c) then 1 else 0
  {
    var host := SyncHost(c, nss);
    var kept := Keep(c, Workloads(c, nss, host));
    var pods := WholePlanKept(c, nss);
    WorkloadsReporting(c, nss, host);
    KeepReporting(c, nss, host, Workloads(c, nss, host));
    NoSyncPods(kept);
    SyncPodsAppend(pods, kept);
    if pods != [] { assert pods == [pods[0]]; assert SyncPods(pods) == 1 by { assert pods[..0] == []; } }
    LocalSyncPods(c, pods + kept);
  }

  lemma {:induction false} DecomposedWhenRecognised(c: Config, nss: seq<string>)
    requires Recognisable(c) || !c.syncStart
    ensures Live(c, nss) == Local(c, Keep(c, Objects(c, nss)))
  {
    WholePlanRecognised(c, nss);
    LocalWorkloads(c, nss, SyncHost(c, nss));
    LiveWhenRecognised(c, nss);
  }

  lemma {:induction false} LocalParts(c: Config, piece: seq<Manifest>, pods: seq<Manifest>, own: seq<Manifest>)
    requires piece == pods + own && Local(c, own) == own
    requires pods == [] || (|pods| == 1 && pods[0].load.Sync?)
    ensures Local(c, piece) == piece
  {
    LocalAppend(c, pods, own);
    if pods != [] { LocalStep(c, [], pods[0]); assert [] + [pods[0]] == pods; }
  }

  lemma {:induction false} OwnIsLocal(c: Config, ns: string)
    ensures Local(c, OwnWorkers(c, ns)) == OwnWorkers(c, ns)
  {
    var there := SyncHost(c, [ns]);
    LocalDeployments(c, ns, there, there, c.deps);
    LocalKeep(c, Deployments(c, ns, there, c.deps));
  }

  lemma {:induction false} OneNamespaceLocal(c: Config, ns: string, piece: seq<Manifest>)
    requires piece == Keep(c, Objects(c, [ns]))
    ensures Local(c, piece) == piece
  {
    var pods := OneNamespace(c, ns);
    OwnIsLocal(c, ns);
    LocalParts(c, piece, pods, OwnWorkers(c, ns));
  }

  lemma {:induction false} DecomposedForOne(c: Config, nss: seq<string>)
    requires |nss| == 1
    ensures Live(c, nss) == Local(c, Keep(c, Objects(c, nss)))
  {
    assert nss == [nss[0]];
    assert Pieces(c, nss) == [Keep(c, Objects(c, [nss[0]]))];
    assert Concat(Pieces(c, nss)) == Keep(c, Objects(c, [nss[0]]));
    OneNamespaceLocal(c, nss[0], Keep(c, Objects(c, [nss[0]])));
  }

  /** Building the plan namespace by namespace and filtering each part gives the filtered whole plan, with every
      object reporting to the service name of its own namespace where the namespaces have one each, exactly if the
      sync pod is recognised by the filter (or there is none, or there is just one namespace). */
  lemma {:induction false} Decomposition(c: Config, nss: seq<string>)
    ensures Live(c, nss) == Local(c, Keep(c, Objects(c, nss))) <==>
      !c.syncStart || Recognisable(c) || |nss| == 1
  {
    if !c.syncStart || Recognisable(c) {
      DecomposedWhenRecognised(c, nss);
    } else if |nss| == 1 {
      DecomposedForOne(c, nss);
    } else {
      LiveSyncPods(c, nss);
      WholePlanSyncPods(c, nss);
    }
  }

  lemma {:induction false} LocalSame(c: Config, nss: seq<string>, host: Host, ms: seq<Manifest>)
    requires !c.syncInFirst && host == SyncHost(c, nss) && AllReporting(c, nss, host, ms)
    ensures Local(c, ms) == ms
  {
    if ms != [] {
      LocalSame(c, nss, host, ms[..|ms| - 1]);
      assert OfNamespace(c, ms[|ms| - 1].namespace, host, ms[|ms| - 1]);
      assert ms == ms[..|ms| - 1] + [ms[|ms| - 1]];
    }
  }

  /** With a namespace of its own for the sync pod nothing is re-addressed. */
  lemma {:induction false} SameHosts(c: Config, nss: seq<string>)
    requires !c.syncInFirst && (Recognisable(c) || !c.syncStart)
    ensures Live(c, nss) == Keep(c, Objects(c, nss))
  {
    var host := SyncHost(c, nss);
    DecomposedWhenRecognised(c, nss);
    WholePlanRecognised(c, nss);
    WorkloadsReporting(c, nss, host);
    KeepReporting(c, nss, host, Workloads(c, nss, host));
    LocalSame(c, nss, host, Keep(c, Workloads(c, nss, host)));
  }

  // ---------------------------------------------------------------------------------------------
  // The sync objects of a live run

  lemma {:induction false} SyncPartMember(c: Config, nss: seq<string>, ms: seq<Manifest>, m: Manifest)
    ensures m in SyncPart(c, nss, ms) <==> m in ms && IsSyncObject(c, nss, m)
  {
    if ms != [] { SyncPartMember(c, nss, ms[..|ms| - 1], m); }
  }

  lemma {:induction false} SyncPartAppend(c: Config, nss: seq<string>, a: seq<Manifest>, b: seq<Manifest>)
    ensures SyncPart(c, nss, a + b) == SyncPart(c, nss, a) + SyncPart(c, nss, b)
  {
    if b == [] {
      assert a + b == a;
    } else {
      assert (a + b)[..|a + b| - 1] == a + b[..|b| - 1];
      SyncPartAppend(c, nss, a, b[..|b| - 1]);
    }
  }

  lemma {:induction false} SyncPartNoSync(c: Config, nss: seq<string>, ms: seq<Manifest>)
    requires NoSync(ms)
    ensures NoSync(SyncPart(c, nss, ms))
  {
    if ms != [] { SyncPartNoSync(c, nss, ms[..|ms| - 1]); }
  }

  lemma {:induction false} Regroup(a: seq<Manifest>, config: seq<Manifest>, service: seq<Manifest>, pod: seq<Manifest>,
                aliases: seq<Manifest>, workloads: seq<Manifest>)
    ensures a + (config + service + pod + aliases) + workloads == (a + (config + service)) + pod + (aliases + workloads)
  {
  }

  lemma {:induction false} NoSyncAppend(a: seq<Manifest>, b: seq<Manifest>)
    requires NoSync(a) && NoSync(b)
    ensures NoSync(a + b)
  {
  }

  /** The whole plan around its one sync pod. */
  lemma {:induction false} AroundSyncPod(c: Config, nss: seq<string>) returns (front: seq<Manifest>, back: seq<Manifest>)
    requires c.syncStart
    ensures Objects(c, nss) == front + [SyncPod(c, nss)] + back
    ensures NoSync(front) && NoSync(back)
  {
    var ns, host := SyncNamespace(c, nss), SyncHost(c, nss);
    var infrastructure := Namespaces(nss) + SyncNamespaceObject(c, nss) + AllConfigMaps(c, nss) + AllSecrets(c, nss);
    var config := if ns in nss then [] else [Manifest(ConfigMap, ns, Text(c.basename + "-system-configmap"), Plain)];
    var service := [Manifest(Service, ns, Text(SyncService(c)), Plain)];
    InfrastructureWithoutSync(c, nss, infrastructure);
    ListsWithoutSync(c, nss, host);
    WorkloadsReporting(c, nss, host);
    front, back := infrastructure + (config + service), Aliases(c, nss, host) + Workloads(c, nss, host);
    NoSyncAppend(infrastructure, config + service);
    NoSyncAppend(Aliases(c, nss, host), Workloads(c, nss, host));
    Regroup(infrastructure, config, service, [SyncPod(c, nss)], Aliases(c, nss, host), Workloads(c, nss, host));
  }

  lemma {:induction false} InfrastructureWithoutSync(c: Config, nss: seq<string>, all: seq<Manifest>)
    requires all == Namespaces(nss) + SyncNamespaceObject(c, nss) + AllConfigMaps(c, nss) + AllSecrets(c, nss)
    ensures NoSync(all)
  {
    ListsWithoutSync(c, nss, SyncHost(c, nss));
  }

  lemma {:induction false} ListsWithoutSync(c: Config, nss: seq<string>, target: Host)
    ensures NoSync(Namespaces(nss)) && NoSync(AllConfigMaps(c, nss)) && NoSync(AllSecrets(c, nss))
    ensures NoSync(Aliases(c, nss, target))
  {
    if nss != [] {
      ListsWithoutSync(c, nss[..|nss| - 1], target);
      SecretsWithoutSync(c, nss[|nss| - 1], c.deps);
    }
  }

  lemma {:induction false} SecretsWithoutSync(c: Config, ns: string, n: nat)
    ensures NoSync(DeploymentSecrets(c, ns, n))
  {
    if n > 0 {
      SecretsWithoutSync(c, ns, n - 1);
      SecretListWithoutSync(ns, c.first + n - 1, c.secrets);
    }
  }

  lemma {:induction false} SecretListWithoutSync(ns: string, dep: nat, n: nat)
    ensures NoSync(SecretsOf(ns, dep, n))
  {
    if n > 0 { SecretListWithoutSync(ns, dep, n - 1); }
  }

  lemma {:induction false} ConcatHas(pieces: seq<seq<Manifest>>, i: nat, m: Manifest)
    requires i < |pieces| && m in pieces[i]
    ensures m in Concat(pieces)
  {
    if i < |pieces| - 1 { ConcatHas(pieces[..|pieces| - 1], i, m); }
  }

  /** A sync pod that is not recognised is created in the plan of every namespace, with the counts of that namespace
      alone. */
  lemma {:induction false} OwnSyncPods(c: Config, nss: seq<string>, i: nat)
    requires c.syncStart && !Recognisable(c) && i < |nss|
    ensures SyncPod(c, [nss[i]]) in Live(c, nss)
  {
    var one := [nss[i]];
    KeepObjects(c, one, Workloads(c, one, SyncHost(c, one)));
    ConcatHas(Pieces(c, nss), i, SyncPod(c, one));
  }

  /** All that a live run submits once the namespaces, configuration maps and secrets are there. */
  function Submitted(c: Config, nss: seq<string>): seq<Manifest> {
    SyncPart(c, nss, Objects(c, nss)) + Live(c, nss)
  }

  lemma {:induction false} KeepMember(c: Config, ms: seq<Manifest>, m: Manifest)
    ensures m in Keep(c, ms) <==> m in ms && Kept(c, m)
  {
    if ms != [] { KeepMember(c, ms[..|ms| - 1], m); }
  }

  lemma {:induction false} OnlyTheMiddle(front: seq<Manifest>, pod: Manifest, back: seq<Manifest>, m: Manifest)
    requires NoSync(front) && NoSync(back) && m.load.Sync?
    ensures m in front + [pod] + back <==> m == pod
  {
  }

  /** The sync pod of a plan is the only one in it, */
  lemma {:induction false} SyncPodOfPlan(c: Config, nss: seq<string>, m: Manifest)
    requires c.syncStart && m.load.Sync?
    ensures m in Objects(c, nss) <==> m == SyncPod(c, nss)
  {
    var front, back := AroundSyncPod(c, nss);
    OnlyTheMiddle(front, SyncPod(c, nss), back, m);
  }

  /** and which filter takes it depends on its name alone. */
  lemma {:induction false} SyncPodFiltered(c: Config, nss: seq<string>, m: Manifest)
    requires m.kind == Pod && m.name == OfPod(c.podPrefix, Text(SyncPodName(c)))
    ensures (IsSyncObject(c, nss, m) <==> Recognisable(c)) && (Kept(c, m) <==> !Recognisable(c))
  {
    RecognisedExactly(c);
    assert Spell(Text(SyncPodName(c))) == SyncPodName(c);
  }

  /** The sync pod as submitted for each namespace. */
  ghost predicate OfOneNamespace(c: Config, nss: seq<string>, m: Manifest) {
    exists i :: 0 <= i < |nss| && m == SyncPod(c, [nss[i]])
  }

  /** The sync pods submitted: that of the whole plan if the filters recognise it, otherwise those of the plans of
      single namespaces. */
  lemma {:induction false} SyncPodsSubmitted(c: Config, nss: seq<string>, m: Manifest)
    requires c.syncStart && m.load.Sync?
    ensures m in Submitted(c, nss) <==> if Recognisable(c) then m == SyncPod(c, nss) else OfOneNamespace(c, nss, m)
  {
    SyncPartMember(c, nss, Objects(c, nss), m);
    SyncPodOfPlan(c, nss, m);
    if m.kind == Pod && m.name == OfPod(c.podPrefix, Text(SyncPodName(c))) { SyncPodFiltered(c, nss, m); }
    var pieces := Pieces(c, nss);
    forall i | 0 <= i < |nss| ensures m in pieces[i] <==> !Recognisable(c) && m == SyncPod(c, [nss[i]]) {
      KeepMember(c, Objects(c, [nss[i]]), m);
      SyncPodOfPlan(c, [nss[i]], m);
    }
    if m in Live(c, nss) { var i := ConcatMember(pieces, m); }
    if !Recognisable(c) && OfOneNamespace(c, nss, m) {
      var i :| 0 <= i < |nss| && m == SyncPod(c, [nss[i]]);
      ConcatHas(pieces, i, m);
    }
  }

  /** The sync pods there are in the cluster after all manifests were applied. */
  ghost function SyncPodObjects(ms: seq<Manifest>): set<Key> {
    set m | m in ms && m.load.Sync? :: KeyOf(m)
  }

  function SyncKey(c: Config, ns: string): Key {
    Key(Pod, ns, PodName(c.podPrefix, SyncPodName(c)))
  }

  ghost function SyncKeys(c: Config, nss: seq<string>): set<Key> {
    set ns | ns in nss :: SyncKey(c, ns)
  }

  lemma {:induction false} SyncKeysSize(c: Config, nss: seq<string>)
    requires Distinct(nss)
    ensures |SyncKeys(c, nss)| == |nss|
  {
    if nss != [] {
      var front, last := nss[..|nss| - 1], nss[|nss| - 1];
      SyncKeysSize(c, front);
      assert nss == front + [last];
      assert SyncKeys(c, nss) == SyncKeys(c, front) + {SyncKey(c, last)};
      assert last !in front;
      assert forall ns :: ns in front ==> SyncKey(c, ns) != SyncKey(c, last);
    }
  }

  lemma {:induction false} KeyOfSyncPod(c: Config, nss: seq<string>)
    ensures KeyOf(SyncPod(c, nss)) == SyncKey(c, SyncNamespace(c, nss))
    ensures SyncPod(c, nss).load == Sync(Expected(c, nss), Initial(c, nss))
  {
    assert Spell(Text(SyncPodName(c))) == SyncPodName(c);
  }

  /** The namespaces in which sync pods are submitted. */
  function SyncPodNamespaces(c: Config, nss: seq<string>): seq<string> {
    if Recognisable(c) then [SyncNamespace(c, nss)]
    else if c.syncInFirst then nss
    else if nss == [] then [] else [SyncNamespace(c, nss)]
  }

  lemma {:induction false} SyncPodIsThere(c: Config, nss: seq<string>, m: Manifest)
    requires c.syncStart && m in Submitted(c, nss) && m.load.Sync?
    ensures KeyOf(m) in SyncKeys(c, SyncPodNamespaces(c, nss))
  {
    SyncPodsSubmitted(c, nss, m);
    if Recognisable(c) {
      KeyOfSyncPod(c, nss);
    } else {
      var i :| 0 <= i < |nss| && m == SyncPod(c, [nss[i]]);
      KeyOfSyncPod(c, [nss[i]]);
    }
  }

  lemma {:induction false} SyncPodOfPlace(c: Config, nss: seq<string>, ns: string) returns (m: Manifest)
    requires c.syncStart && ns in SyncPodNamespaces(c, nss)
    ensures m in Submitted(c, nss) && m.load.Sync? && KeyOf(m) == SyncKey(c, ns)
  {
    var plan := if Recognisable(c) then nss else if c.syncInFirst then [ns] else [nss[0]];
    m := SyncPod(c, plan);
    KeyOfSyncPod(c, plan);
    if !Recognisable(c) { OneOfThem(c, nss, plan); }
    SyncPodsSubmitted(c, nss, m);
  }

  lemma {:induction false} WhereSyncPodsAre(c: Config, nss: seq<string>)
    requires c.syncStart
    ensures SyncPodObjects(Submitted(c, nss)) == SyncKeys(c, SyncPodNamespaces(c, nss))
  {
    var all, places := Submitted(c, nss), SyncPodNamespaces(c, nss);
    forall m | m in all && m.load.Sync? ensures KeyOf(m) in SyncKeys(c, places) { SyncPodIsThere(c, nss, m); }
    forall ns | ns in places ensures SyncKey(c, ns) in SyncPodObjects(all) { var m := SyncPodOfPlace(c, nss, ns); }
  }

  lemma {:induction false} OneOfThem(c: Config, nss: seq<string>, of: seq<string>)
    requires |of| == 1 && of[0] in nss
    ensures OfOneNamespace(c, nss, SyncPod(c, of))
  {
    var i :| 0 <= i < |nss| && nss[i] == of[0];
    assert of == [nss[i]];
  }

  /** How many sync pods a live run ends up with. A sync pod that is not recognised is submitted for each namespace;
      but only where the first namespace holds the sync pod are these different objects. */
  lemma {:induction false} SyncPodsCreated(c: Config, nss: seq<string>)
    requires c.syncStart && Distinct(nss)
    ensures |SyncPodObjects(Submitted(c, nss))| ==
            if Recognisable(c) then 1 else if c.syncInFirst then |nss| else if nss == [] then 0 else 1
    ensures |SyncPodObjects(Submitted(c, nss))| == 1 <==>
            Recognisable(c) || |nss| == 1 || (!c.syncInFirst && nss != [])
  {
    WhereSyncPodsAre(c, nss);
    SyncKeysSize(c, SyncPodNamespaces(c, nss));
  }

  /** The counts grow with the number of namespaces. */
  lemma {:induction false} CountsPerNamespace(c: Config, nss: seq<string>, ns: string)
    ensures Expected(c, nss) == Expected(c, [ns]) * |nss|
    ensures Initial(c, nss) == Initial(c, [ns]) * |nss|
    ensures Initial(c, [ns]) == 0 ==> Expected(c, [ns]) == 0
  {
    assert |[ns]| == 1;
    if !c.clientServer && c.containers > 0 && c.replicas > 0 && c.deps > 0 {
      Positive(c.containers + if c.dropCache then 1 else 0, c.replicas, c.deps);
    }
  }

  lemma {:induction false} Positive(x: nat, y: nat, z: nat)
    requires x > 0 && y > 0 && z > 0
    ensures x * y * z > 0
  {
    assert x * y > 0;
  }

  lemma {:induction false} SameMultiple(x: nat, n: nat)
    ensures x == x * n <==> x == 0 || n == 1
  {
    if x > 0 && n > 1 { assert x * n >= x * 2; }
  }

  ghost predicate HasSyncPodWith(ms: seq<Manifest>, expected: nat, initial: nat) {
    exists m :: m in ms && m.load == Sync(expected, initial)
  }

  /** Whether the run gets a sync pod that waits for all its clients: exactly if the filters recognise the pod, or
      there is just one namespace, or there is nothing to wait for. */
  lemma {:induction false} RightCountsExactly(c: Config, nss: seq<string>)
    requires c.syncStart
    ensures HasSyncPodWith(Submitted(c, nss), Expected(c, nss), Initial(c, nss)) <==>
            Recognisable(c) || |nss| == 1 || (nss != [] && Initial(c, nss) == 0)
  {
    var e, n := Expected(c, nss), Initial(c, nss);
    if Recognisable(c) {
      SyncPodsSubmitted(c, nss, SyncPod(c, nss));
      KeyOfSyncPod(c, nss);
    } else {
      if nss != [] {
        OneNamespaceCounts(c, nss, nss[0], e, n);
        OneOfThem(c, nss, [nss[0]]);
        SyncPodsSubmitted(c, nss, SyncPod(c, [nss[0]]));
      }
      forall m | m in Submitted(c, nss) && m.load == Sync(e, n) ensures nss != [] && (|nss| == 1 || n == 0) {
        SyncPodsSubmitted(c, nss, m);
        var i :| 0 <= i < |nss| && m == SyncPod(c, [nss[i]]);
        OneNamespaceCounts(c, nss, nss[i], e, n);
      }
    }
  }

  lemma {:induction false} OneNamespaceCounts(c: Config, nss: seq<string>, ns: string, e: nat, n: nat)
    requires e == Expected(c, nss) && n == Initial(c, nss) && nss != []
    ensures SyncPod(c, [ns]).load == Sync(e, n) <==> |nss| == 1 || n == 0
  {
    KeyOfSyncPod(c, [ns]);
    CountsPerNamespace(c, nss, ns);
    SameMultiple(Initial(c, [ns]), |nss|);
    SameMultiple(Expected(c, [ns]), |nss|);
    ProductZero(Initial(c, [ns]), |nss|);
  }

  lemma {:induction false} ProductZero(x: nat, n: nat)
    requires n > 0
    ensures x * n == 0 <==> x == 0
  {
  }

  /** The counts of every sync pod of a run whose filters do not recognise it: those of one namespace, of which the
      run's counts are |nss| times as much. */
  lemma {:induction false} UnrecognisedCounts(c: Config, nss: seq<string>, m: Manifest)
    requires c.syncStart && !Recognisable(c) && m in Submitted(c, nss) && m.load.Sync?
    ensures Expected(c, nss) == m.load.expected * |nss| && Initial(c, nss) == m.load.initial * |nss|
  {
    SyncPodsSubmitted(c, nss, m);
    var i :| 0 <= i < |nss| && m == SyncPod(c, [nss[i]]);
    KeyOfSyncPod(c, [nss[i]]);
    CountsPerNamespace(c, nss, nss[i]);
  }

  // ---------------------------------------------------------------------------------------------
  // The host names resolve

  predicate Answers(m: Manifest, h: Host) {
    m.kind == Service && m.namespace == h.namespace && Spell(m.name) == h.service
  }

  /** Looking up a host among the services finds one kind of answer. */
  ghost predicate Finds(ms: seq<Manifest>, h: Host, answer: Load) {
    && (exists m :: m in ms && Answers(m, h))
    && (forall m :: m in ms && Answers(m, h) ==> m.load == answer)
  }

  lemma {:induction false} AliasMember(c: Config, nss: seq<string>, target: Host, m: Manifest)
    ensures m in Aliases(c, nss, target) <==>
      m.namespace in nss && m.namespace != target.namespace && m == SyncAlias(c, m.namespace, target)
  {
    if nss != [] { AliasMember(c, nss[..|nss| - 1], target, m); }
  }

  function SyncAlias(c: Config, ns: string, target: Host): Manifest {
    Manifest(Service, ns, Text(SyncService(c)), Alias(target))
  }

  function RealService(c: Config, nss: seq<string>): Manifest {
    Manifest(Service, SyncNamespace(c, nss), Text(SyncService(c)), Plain)
  }

  ghost predicate NoService(ms: seq<Manifest>) {
    forall i :: 0 <= i < |ms| ==> ms[i].kind != Service
  }

  lemma {:induction false} ListsWithoutService(c: Config, nss: seq<string>)
    ensures NoService(Namespaces(nss)) && NoService(AllConfigMaps(c, nss)) && NoService(AllSecrets(c, nss))
  {
    if nss != [] {
      ListsWithoutService(c, nss[..|nss| - 1]);
      SecretsWithoutService(c, nss[|nss| - 1], c.deps);
    }
  }

  lemma {:induction false} SecretsWithoutService(c: Config, ns: string, n: nat)
    ensures NoService(DeploymentSecrets(c, ns, n))
  {
    if n > 0 {
      SecretsWithoutService(c, ns, n - 1);
      SecretListWithoutService(ns, c.first + n - 1, c.secrets);
    }
  }

  lemma {:induction false} SecretListWithoutService(ns: string, dep: nat, n: nat)
    ensures NoService(SecretsOf(ns, dep, n))
  {
    if n > 0 { SecretListWithoutService(ns, dep, n - 1); }
  }

  lemma {:induction false} NoSyncServiceInWorkloads(c: Config, nss: seq<string>, workloads: seq<Manifest>, m: Manifest)
    requires workloads == Workloads(c, nss, SyncHost(c, nss))
    requires m.kind == Service && Spell(m.name) == SyncService(c)
    ensures m !in workloads
  {
    WorkloadsReporting(c, nss, SyncHost(c, nss));
    forall i | 0 <= i < |workloads| ensures workloads[i] != m {
      assert OfNamespace(c, workloads[i].namespace, SyncHost(c, nss), workloads[i]);
    }
  }

  lemma {:induction false} NotAmong(infrastructure: seq<Manifest>, m: Manifest)
    requires NoService(infrastructure) && m.kind == Service
    ensures m !in infrastructure
  {
  }

  lemma {:induction false} SyncServicesOnly(c: Config, nss: seq<string>, m: Manifest)
    requires m.kind == Service
    ensures m in SyncObjects(c, nss) <==> m == RealService(c, nss) || m in Aliases(c, nss, SyncHost(c, nss))
  {
    assert SyncPod(c, nss).kind == Pod;
  }

  /** The services with the sync service's name: the real one, and an alias in every other namespace. */
  lemma {:induction false} SyncServices(c: Config, nss: seq<string>, m: Manifest)
    requires c.syncStart && m.kind == Service && Spell(m.name) == SyncService(c)
    ensures m in Objects(c, nss) <==> m == RealService(c, nss) || m in Aliases(c, nss, SyncHost(c, nss))
  {
    var workloads := Workloads(c, nss, SyncHost(c, nss));
    ListsWithoutService(c, nss);
    NoSyncServiceInWorkloads(c, nss, workloads, m);
    NotAmong(Namespaces(nss), m);
    NotAmong(SyncNamespaceObject(c, nss), m);
    NotAmong(AllConfigMaps(c, nss), m);
    NotAmong(AllSecrets(c, nss), m);
    SyncServicesOnly(c, nss, m);
    var infrastructure := Namespaces(nss) + SyncNamespaceObject(c, nss) + AllConfigMaps(c, nss) + AllSecrets(c, nss);
    assert m in infrastructure + SyncObjects(c, nss) + workloads <==> m in SyncObjects(c, nss);
  }

  lemma {:induction false} FindsReal(c: Config, nss: seq<string>)
    requires c.syncStart
    ensures Finds(SyncPart(c, nss, Objects(c, nss)), SyncHost(c, nss), Plain)
  {
    var made, host := SyncPart(c, nss, Objects(c, nss)), SyncHost(c, nss);
    var service := RealService(c, nss);
    SyncServices(c, nss, service);
    SyncPartMember(c, nss, Objects(c, nss), service);
    assert service in made && Answers(service, host);
    forall m | m in made && Answers(m, host) ensures m.load == Plain {
      SyncPartMember(c, nss, Objects(c, nss), m);
      SyncServices(c, nss, m);
      AliasMember(c, nss, host, m);
    }
  }

  lemma {:induction false} FindsAlias(c: Config, nss: seq<string>, ns: string)
    requires c.syncStart && ns in nss && ns != SyncNamespace(c, nss)
    ensures Finds(SyncPart(c, nss, Objects(c, nss)), Host(SyncService(c), ns), Alias(SyncHost(c, nss)))
  {
    var made, host, target := SyncPart(c, nss, Objects(c, nss)), Host(SyncService(c), ns), SyncHost(c, nss);
    var a := SyncAlias(c, ns, target);
    AliasMember(c, nss, target, a);
    SyncServices(c, nss, a);
    SyncPartMember(c, nss, Objects(c, nss), a);
    assert a in made && Answers(a, host);
    forall m | m in made && Answers(m, host) ensures m.load == Alias(target) {
      SyncPartMember(c, nss, Objects(c, nss), m);
      SyncServices(c, nss, m);
      AliasMember(c, nss, target, m);
    }
  }

  lemma {:induction false} ConcatMember(pieces: seq<seq<Manifest>>, m: Manifest) returns (i: nat)
    requires m in Concat(pieces)
    ensures i < |pieces| && m in pieces[i]
  {
    if m in pieces[|pieces| - 1] {
      i := |pieces| - 1;
    } else {
      i := ConcatMember(pieces[..|pieces| - 1], m);
    }
  }

  /** A worker of a live run reports to the sync service name its namespace's plan gave it. */
  lemma {:induction false} LiveHost(c: Config, nss: seq<string>, m: Manifest)
    requires m in Live(c, nss) && (m.load.Worker? || m.load.DropCache?)
    ensures m.namespace in nss && m.load.host == SyncHost(c, [m.namespace])
  {
    var i := ConcatMember(Pieces(c, nss), m);
    PieceHost(c, nss[i], Pieces(c, nss)[i], m);
  }

  lemma {:induction false} PieceHost(c: Config, ns: string, piece: seq<Manifest>, m: Manifest)
    requires piece == Keep(c, Objects(c, [ns])) && m in piece && (m.load.Worker? || m.load.DropCache?)
    ensures m.namespace == ns && m.load.host == SyncHost(c, [ns])
  {
    var pods := OneNamespace(c, ns);
    var own := OwnWorkers(c, ns);
    InEither(piece, pods, own, m);
    OwnHost(c, ns, own, m);
  }

  lemma {:induction false} InEither(all: seq<Manifest>, pods: seq<Manifest>, own: seq<Manifest>, m: Manifest)
    requires all == pods + own && m in all && !m.load.Sync?
    requires pods == [] || (|pods| == 1 && pods[0].load.Sync?)
    ensures m in own
  {
  }

  lemma {:induction false} OwnHost(c: Config, ns: string, own: seq<Manifest>, m: Manifest)
    requires own == OwnWorkers(c, ns) && m in own && (m.load.Worker? || m.load.DropCache?)
    ensures m.namespace == ns && m.load.host == SyncHost(c, [ns])
  {
    var host := SyncHost(c, [ns]);
    DeploymentsOfNamespace(c, ns, host, c.deps);
    KeepOfNamespace(c, ns, host, Deployments(c, ns, host, c.deps));
    var k :| 0 <= k < |own| && own[k] == m;
    assert OfNamespace(c, ns, host, own[k]);
  }

  /** Every worker of a live run reports to a name that leads, directly or through the alias in its own namespace, to
      the one service of the sync pod. */
  lemma {:induction false} HostsResolve(c: Config, nss: seq<string>, m: Manifest)
    requires c.syncStart && m in Live(c, nss) && (m.load.Worker? || m.load.DropCache?)
    ensures var made, target := SyncPart(c, nss, Objects(c, nss)), SyncHost(c, nss);
            && Finds(made, target, Plain)
            && (m.load.host == target || Finds(made, m.load.host, Alias(target)))
  {
    FindsReal(c, nss);
    LiveHost(c, nss, m);
    if m.load.host != SyncHost(c, nss) { FindsAlias(c, nss, m.namespace); }
  }

  // ---------------------------------------------------------------------------------------------
  // Namespace names

  function NamespaceName(basename: string, i: nat): string {
    basename + "-" + Decimal(i)
  }

  lemma {:induction false} NamespaceNamesDiffer(basename: string, i: nat, j: nat)
    requires NamespaceName(basename, i) == NamespaceName(basename, j)
    ensures i == j
  {
    var front := basename + "-";
    assert NamespaceName(basename, i)[|front|..] == Decimal(i) && NamespaceName(basename, j)[|front|..] == Decimal(j);
    DecimalInjective(i, j);
  }

  /** The free names among the first n. */
  function FreeNames(basename: string, existing: set<string>, n: nat): seq<string> {
    if n == 0 then []
    else FreeNames(basename, existing, n - 1)
         + if NamespaceName(basename, n - 1) in existing then [] else [NamespaceName(basename, n - 1)]
  }

  /** One of the first n names. */
  ghost predicate Below(basename: string, n: nat, s: string) {
    exists j: nat :: j < n && s == NamespaceName(basename, j)
  }

  lemma {:induction false} BelowStep(basename: string, n: nat) returns (last: string)
    requires n > 0
    ensures forall s :: Below(basename, n, s) <==> Below(basename, n - 1, s) || s == last
    ensures !Below(basename, n - 1, last) && last == NamespaceName(basename, n - 1)
  {
    last := NamespaceName(basename, n - 1);
    forall j: nat | j < n - 1 ensures NamespaceName(basename, j) != last {
      if NamespaceName(basename, j) == last { NamespaceNamesDiffer(basename, j, n - 1); }
    }
  }

  /** They are distinct, and exactly the free ones. */
  lemma {:induction false} FreeNamesOk(basename: string, existing: set<string>, n: nat)
    ensures Distinct(FreeNames(basename, existing, n))
    ensures forall s :: s in FreeNames(basename, existing, n) <==> s !in existing && Below(basename, n, s)
  {
    if n > 0 {
      var before := FreeNames(basename, existing, n - 1);
      FreeNamesOk(basename, existing, n - 1);
      var last := BelowStep(basename, n);
      if last in existing {
        assert FreeNames(basename, existing, n) == before;
      } else {
        assert FreeNames(basename, existing, n) == before + [last];
        DistinctAppend(before, last);
      }
    }
  }

  /** No more are missing than names are taken. */
  lemma {:induction false} TakenNames(basename: string, existing: set<string>, n: nat) returns (taken: set<string>)
    ensures taken <= existing && n == |FreeNames(basename, existing, n)| + |taken|
    ensures forall s :: s in taken ==> Below(basename, n, s)
  {
    taken := {};
    if n > 0 {
      taken := TakenNames(basename, existing, n - 1);
      var last := BelowStep(basename, n);
      if last in existing { taken := taken + {last}; }
    }
  }

  lemma {:induction false} DistinctAppend(s: seq<string>, last: string)
    requires Distinct(s) && last !in s
    ensures Distinct(s + [last])
  {
  }

  lemma {:induction false} FreeNamesBound(basename: string, existing: set<string>, n: nat)
    ensures Distinct(FreeNames(basename, existing, n)) && n <= |FreeNames(basename, existing, n)| + |existing|
  {
    FreeNamesOk(basename, existing, n);
    var taken := TakenNames(basename, existing, n);
    SubsetSize(taken, existing);
  }

  /** plan_namespace_names(): the first free names in order; it ends because only finitely many names are taken. */
  method PlanNamespaceNames(basename: string, namespaces: nat, existing: set<string>)
    returns (names: seq<string>, ghost tried: nat)
    ensures |names| == namespaces && Distinct(names)
    ensures names == FreeNames(basename, existing, tried)
    ensures tried > 0 ==> |FreeNames(basename, existing, tried - 1)| < namespaces
  {
    names := [];
    var idx: nat := 0;
    FreeNamesBound(basename, existing, idx);
    while |names| < namespaces
      invariant names == FreeNames(basename, existing, idx) && |names| <= namespaces && Distinct(names)
      invariant idx > 0 ==> |FreeNames(basename, existing, idx - 1)| < namespaces
      invariant idx <= |names| + |existing|
      decreases namespaces + |existing| - idx
    {
      var name := NamespaceName(basename, idx);
      if name !in existing {
        names := names + [name];
      }
      idx := idx + 1;
      FreeNamesBound(basename, existing, idx);
    }
    tried := idx;
  }
}
