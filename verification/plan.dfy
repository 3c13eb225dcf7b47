/** The objects of a run and the counts given to the sync pod (driver/manifest_plan.py). */
module Plan {
  // ---------------------------------------------------------------------------------------------
  // Names

  /** str(n) for a natural number. */
  function Decimal(n: nat): (s: string)
    ensures s != [] && forall i :: 0 <= i < |s| ==> '0' <= s[i] <= '9'
  {
    (if n < 10 then [] else Decimal(n / 10)) + [('0' as int + n % 10) as char]
  }

  lemma {:induction false} DecimalInjective(m: nat, n: nat)
    requires Decimal(m) == Decimal(n)
    ensures m == n
  {
    var s, t := Decimal(m), Decimal(n);
    assert s[|s| - 1] == ('0' as int + m % 10) as char && t[|t| - 1] == ('0' as int + n % 10) as char;
    assert m % 10 == n % 10;
    assert s[..|s| - 1] == if m < 10 then [] else Decimal(m / 10);
    assert t[..|t| - 1] == if n < 10 then [] else Decimal(n / 10);
    if m >= 10 && n >= 10 { DecimalInjective(m / 10, n / 10); }
  }

  function Dashes(s: string): (r: string)
    ensures |r| == |s| && forall i :: 0 <= i < |s| ==> r[i] == if s[i] == '_' then '-' else s[i]
  {
    seq(|s|, i requires 0 <= i < |s| => if s[i] == '_' then '-' else s[i])
  }

  // ---------------------------------------------------------------------------------------------
  // Configuration and manifests

  datatype DeployAs = AsPod | AsDeployment | AsReplicaSet | AsVm

  /** What the plan depends on; `clientServer`, `dropCache` and `listens` are answers of the workload. */
  datatype Config = Config(basename: string, podPrefix: string, workload: string, deployAs: DeployAs,
                           syncStart: bool, syncInFirst: bool, secrets: nat, deps: nat, first: nat,
                           replicas: nat, containers: nat, processes: nat,
                           clientServer: bool, dropCache: bool, listens: bool)

  datatype Kind = Namespace | ConfigMap | Secret | Service | Pod | Deployment | ReplicaSet | VirtualMachine

  /** The DNS name `service.namespace.svc.cluster.local`. */
  datatype Host = Host(service: string, namespace: string)

  datatype Role = Single | Server | Client

  /** The part of a manifest that matters to synchronisation: the counts given to the sync pod, the target of an
      ExternalName service, the host a drop-cache pod or the containers of a worker report to. */
  datatype Load =
    | Plain
    | Sync(expected: nat, initial: nat)
    | Alias(target: Host)
    | DropCache(host: Host)
    | Worker(role: Role, containers: nat, host: Host)

  /** How a name is put together. */
  datatype Name =
    | Text(text: string)
    | OfDeployment(namespace: string, workload: string, role: Role, dep: nat)
    | Numbered(base: Name, n: nat)
    | OfCache(worker: Name)
    | OfPod(prefix: string, name: Name)

  function Spell(name: Name): string {
    match name
    case Text(text) => text
    case OfDeployment(ns, workload, role, dep) =>
      ns + "-" + workload + (match role case Single => "" case Server => "-server" case Client => "-client")
        + "-" + Decimal(dep)
    case Numbered(base, n) => Spell(base) + "-" + Decimal(n)
    case OfCache(worker) => Spell(worker) + "-dc"
    case OfPod(prefix, base) => PodName(prefix, Spell(base))
  }

  /** mkpodname(): the prefix, and dashes for underscores. */
  function PodName(prefix: string, name: string): string {
    Dashes(prefix + name)
  }

  datatype Manifest = Manifest(kind: Kind, namespace: string, name: Name, load: Load)

  /** What makes an object of the cluster: applying a second manifest with the same key updates the first object. */
  datatype Key = Key(kind: Kind, namespace: string, name: string)

  function KeyOf(m: Manifest): Key {
    Key(m.kind, m.namespace, Spell(m.name))
  }

  function SyncPodName(c: Config): string {
    c.basename + "-sync"
  }

  function SyncService(c: Config): string {
    c.basename + "-sync-0"
  }

  function SyncNamespace(c: Config, nss: seq<string>): string {
    if c.syncInFirst then (if nss == [] then c.basename + "-0" else nss[0]) else c.basename + "-sync"
  }

  function SyncHost(c: Config, nss: seq<string>): Host {
    Host(SyncService(c), SyncNamespace(c, nss))
  }

  function ObjectName(c: Config, ns: string, role: Role, dep: nat, replica: nat): Name {
    Numbered(OfDeployment(ns, c.workload, role, dep), replica)
  }

  function KindOf(how: DeployAs): Kind {
    match how case AsPod => Pod case AsDeployment => Deployment case AsReplicaSet => ReplicaSet case AsVm => VirtualMachine
  }

  // ---------------------------------------------------------------------------------------------
  // The plan as a function; `n` counts how many objects of a loop are included

  function WorkerObject(c: Config, ns: string, role: Role, dep: nat, host: Host, replica: nat): Manifest {
    if c.deployAs.AsVm? then
      Manifest(VirtualMachine, ns, ObjectName(c, ns, role, dep, replica), Worker(role, 1, host))
    else
      Manifest(KindOf(if role.Server? then AsPod else c.deployAs), ns, OfPod(c.podPrefix, ObjectName(c, ns, role, dep, replica)),
               Worker(role, c.containers, host))
  }

  function WorkerObjects(c: Config, ns: string, role: Role, dep: nat, host: Host, n: nat): seq<Manifest> {
    if n == 0 then [] else WorkerObjects(c, ns, role, dep, host, n - 1) + [WorkerObject(c, ns, role, dep, host, n)]
  }

  function DropCachePod(c: Config, ns: string, dep: nat, host: Host, replica: nat): Manifest {
    Manifest(Pod, ns, OfPod(c.podPrefix, OfCache(ObjectName(c, ns, Single, dep, replica))), DropCache(host))
  }

  function DropCachePods(c: Config, ns: string, dep: nat, host: Host, n: nat): seq<Manifest> {
    if n == 0 then [] else DropCachePods(c, ns, dep, host, n - 1) + [DropCachePod(c, ns, dep, host, n)]
  }

  function Workers(c: Config, ns: string, dep: nat, host: Host): seq<Manifest> {
    if c.clientServer then
      WorkerObjects(c, ns, Server, dep, host, 1) + WorkerObjects(c, ns, Client, dep, host, c.replicas)
    else WorkerObjects(c, ns, Single, dep, host, c.replicas)
  }

  function ServerService(c: Config, ns: string, dep: nat): Manifest {
    Manifest(Service, ns, ObjectName(c, ns, Server, dep, 1), Plain)
  }

  function ServerServices(c: Config, ns: string, dep: nat): seq<Manifest> {
    if c.clientServer && c.listens then [ServerService(c, ns, dep)] else []
  }

  function Caches(c: Config, ns: string, dep: nat, host: Host): seq<Manifest> {
    if c.dropCache then DropCachePods(c, ns, dep, host, c.replicas) else []
  }

  /** Everything for one deployment of one namespace. */
  function DeploymentObjects(c: Config, ns: string, dep: nat, host: Host): seq<Manifest> {
    Caches(c, ns, dep, host) + ServerServices(c, ns, dep) + Workers(c, ns, dep, host)
  }

  function Deployments(c: Config, ns: string, host: Host, n: nat): seq<Manifest> {
    if n == 0 then [] else Deployments(c, ns, host, n - 1) + DeploymentObjects(c, ns, n - 1 + c.first, host)
  }

  lemma {:induction false} DeploymentsStep(c: Config, ns: string, host: Host, n: nat) returns (piece: seq<Manifest>, dep: nat)
    requires n > 0
    ensures Deployments(c, ns, host, n) == Deployments(c, ns, host, n - 1) + piece
    ensures dep == n - 1 + c.first && piece == DeploymentObjects(c, ns, dep, host)
  {
    dep := n - 1 + c.first;
    piece := DeploymentObjects(c, ns, dep, host);
  }

  function Workloads(c: Config, nss: seq<string>, host: Host): seq<Manifest> {
    if nss == [] then []
    else Workloads(c, nss[..|nss| - 1], host) + Deployments(c, nss[|nss| - 1], host, c.deps)
  }

  function Namespaces(nss: seq<string>): seq<Manifest> {
    if nss == [] then [] else Namespaces(nss[..|nss| - 1]) + [Manifest(Namespace, "", Text(nss[|nss| - 1]), Plain)]
  }

  function SyncNamespaceObject(c: Config, nss: seq<string>): seq<Manifest> {
    if c.syncStart && SyncNamespace(c, nss) !in nss then [Manifest(Namespace, "", Text(SyncNamespace(c, nss)), Plain)] else []
  }

  function ConfigMaps(c: Config, ns: string): seq<Manifest> {
    [Manifest(ConfigMap, ns, Text(c.basename + "-system-configmap"), Plain),
     Manifest(ConfigMap, ns, Text(c.basename + "-user-configmap"), Plain)]
  }

  function AllConfigMaps(c: Config, nss: seq<string>): seq<Manifest> {
    if nss == [] then [] else AllConfigMaps(c, nss[..|nss| - 1]) + ConfigMaps(c, nss[|nss| - 1])
  }

  function SecretName(ns: string, dep: nat, k: nat): Name {
    Text("secret-" + ns + "-" + Decimal(dep) + "-" + Decimal(k))
  }

  function SecretsOf(ns: string, dep: nat, n: nat): seq<Manifest> {
    if n == 0 then []
    else SecretsOf(ns, dep, n - 1)
         + [Manifest(Secret, ns, SecretName(ns, dep, n - 1), Plain)]
  }

  function DeploymentSecrets(c: Config, ns: string, n: nat): seq<Manifest> {
    if n == 0 then [] else DeploymentSecrets(c, ns, n - 1) + SecretsOf(ns, c.first + n - 1, c.secrets)
  }

  function AllSecrets(c: Config, nss: seq<string>): seq<Manifest> {
    if nss == [] then [] else AllSecrets(c, nss[..|nss| - 1]) + DeploymentSecrets(c, nss[|nss| - 1], c.deps)
  }

  /** The number of workers the sync pod waits for in every round after the first. */
  function Expected(c: Config, nss: seq<string>): nat {
    if c.clientServer then c.containers * c.replicas * c.deps * |nss|
    else c.containers * c.replicas * c.processes * c.deps * |nss|
  }

  /** The number of containers the sync pod waits for in the first round. */
  function Initial(c: Config, nss: seq<string>): nat {
    if c.clientServer then (c.containers * c.replicas * c.deps + c.deps) * |nss|
    else (c.containers + if c.dropCache then 1 else 0) * c.replicas * c.deps * |nss|
  }

  function Aliases(c: Config, nss: seq<string>, target: Host): seq<Manifest> {
    if nss == [] then []
    else
      var ns := nss[|nss| - 1];
      Aliases(c, nss[..|nss| - 1], target)
      + if ns == target.namespace then [] else [Manifest(Service, ns, Text(SyncService(c)), Alias(target))]
  }

  function SyncPod(c: Config, nss: seq<string>): Manifest {
    Manifest(Pod, SyncNamespace(c, nss), OfPod(c.podPrefix, Text(SyncPodName(c))), Sync(Expected(c, nss), Initial(c, nss)))
  }

  function SyncObjects(c: Config, nss: seq<string>): seq<Manifest> {
    var ns := SyncNamespace(c, nss);
    (if ns in nss then [] else [Manifest(ConfigMap, ns, Text(c.basename + "-system-configmap"), Plain)])
    + [Manifest(Service, ns, Text(SyncService(c)), Plain)] + [SyncPod(c, nss)] + Aliases(c, nss, SyncHost(c, nss))
  }

  /** build_manifest_plan() */
  function Objects(c: Config, nss: seq<string>): seq<Manifest> {
    Namespaces(nss) + SyncNamespaceObject(c, nss) + AllConfigMaps(c, nss) + AllSecrets(c, nss)
    + (if c.syncStart then SyncObjects(c, nss) else [])
    + Workloads(c, nss, SyncHost(c, nss))
  }

  // ---------------------------------------------------------------------------------------------
  // The code: nested loops that append to a list

  /** The containers c0, c1, ... of a pod, by number. */
  method BuildContainers(c: Config) returns (containers: seq<nat>)
    ensures |containers| == c.containers && forall i :: 0 <= i < |containers| ==> containers[i] == i
  {
    containers := [];
    for ci := 0 to c.containers
      invariant |containers| == ci && forall i :: 0 <= i < ci ==> containers[i] == i
    {
      containers := containers + [ci];
    }
  }

  method BuildSingleRoleDeployment(c: Config, ns: string, role: Role, dep: nat, host: Host, forcePod: bool)
    returns (manifests: seq<Manifest>)
    requires !c.deployAs.AsVm? && forcePod == role.Server?
    ensures manifests == WorkerObjects(c, ns, role, dep, host, if forcePod then 1 else c.replicas)
  {
    var how := if forcePod then AsPod else c.deployAs;
    var replicas := if forcePod then 1 else c.replicas;
    manifests := [];
    for r := 0 to replicas
      invariant manifests == WorkerObjects(c, ns, role, dep, host, r)
    {
      var containers := BuildContainers(c);
      var name := OfPod(c.podPrefix, ObjectName(c, ns, role, dep, r + 1));
      if how.AsReplicaSet? {
        manifests := manifests + [Manifest(ReplicaSet, ns, name, Worker(role, |containers|, host))];
      } else if how.AsDeployment? {
        manifests := manifests + [Manifest(Deployment, ns, name, Worker(role, |containers|, host))];
      } else {
        manifests := manifests + [Manifest(Pod, ns, name, Worker(role, |containers|, host))];
      }
    }
  }

  method BuildClientServerDeployments(c: Config, ns: string, dep: nat, host: Host) returns (manifests: seq<Manifest>)
    requires !c.deployAs.AsVm? && c.clientServer
    ensures manifests == Workers(c, ns, dep, host)
  {
    manifests := BuildSingleRoleDeployment(c, ns, Server, dep, host, true);
    var clients := BuildSingleRoleDeployment(c, ns, Client, dep, host, false);
    manifests := manifests + clients;
  }

  method BuildVmRole(c: Config, ns: string, role: Role, replicas: nat, dep: nat, host: Host, manifests: seq<Manifest>)
    returns (out: seq<Manifest>)
    requires c.deployAs.AsVm?
    ensures out == manifests + WorkerObjects(c, ns, role, dep, host, replicas)
  {
    out := manifests;
    for r := 0 to replicas
      invariant out == manifests + WorkerObjects(c, ns, role, dep, host, r)
    {
      out := out + [Manifest(VirtualMachine, ns, ObjectName(c, ns, role, dep, r + 1), Worker(role, 1, host))];
    }
  }

  method BuildVmManifests(c: Config, ns: string, dep: nat, host: Host, manifests: seq<Manifest>)
    returns (out: seq<Manifest>)
    requires c.deployAs.AsVm?
    ensures out == manifests + Workers(c, ns, dep, host)
  {
    if c.clientServer {
      out := BuildVmRole(c, ns, Server, 1, dep, host, manifests);
      out := BuildVmRole(c, ns, Client, c.replicas, dep, host, out);
    } else {
      out := BuildVmRole(c, ns, Single, c.replicas, dep, host, manifests);
    }
  }

  method BuildDropCachePods(c: Config, ns: string, dep: nat, host: Host) returns (out: seq<Manifest>)
    ensures out == DropCachePods(c, ns, dep, host, c.replicas)
  {
    out := [];
    for r := 0 to c.replicas
      invariant out == DropCachePods(c, ns, dep, host, r)
    {
      out := out + [DropCachePod(c, ns, dep, host, r + 1)];
    }
  }

  method BuildWorkers(c: Config, ns: string, dep: nat, host: Host, manifests: seq<Manifest>) returns (out: seq<Manifest>)
    ensures out == manifests + Workers(c, ns, dep, host)
  {
    if c.deployAs.AsVm? {
      out := BuildVmManifests(c, ns, dep, host, manifests);
    } else if c.clientServer {
      var more := BuildClientServerDeployments(c, ns, dep, host);
      out := manifests + more;
    } else {
      var more := BuildSingleRoleDeployment(c, ns, Single, dep, host, false);
      out := manifests + more;
    }
  }

  method BuildDeployment(c: Config, ns: string, dep: nat, host: Host) returns (out: seq<Manifest>)
    ensures out == DeploymentObjects(c, ns, dep, host)
  {
    out := [];
    if c.dropCache {
      out := BuildDropCachePods(c, ns, dep, host);
    }
    if c.clientServer {
      if c.listens {
        out := out + [ServerService(c, ns, dep)];
      }
    }
    out := BuildWorkers(c, ns, dep, host, out);
  }

  method BuildDeployments(c: Config, ns: string, host: Host) returns (out: seq<Manifest>)
    ensures out == Deployments(c, ns, host, c.deps)
  {
    out := [];
    for dep := 0 to c.deps
      invariant out == Deployments(c, ns, host, dep)
    {
      ghost var piece, d := DeploymentsStep(c, ns, host, dep + 1);
      var more := BuildDeployment(c, ns, dep + c.first, host);
      out := out + more;
    }
  }

  method BuildWorkloads(c: Config, nss: seq<string>, host: Host) returns (out: seq<Manifest>)
    ensures out == Workloads(c, nss, host)
  {
    out := [];
    for i := 0 to |nss|
      invariant out == Workloads(c, nss[..i], host)
    {
      var more := BuildDeployments(c, nss[i], host);
      out := out + more;
      assert nss[..i + 1][..i] == nss[..i];
    }
    assert nss[..|nss|] == nss;
  }

  method BuildNamespaces(c: Config, nss: seq<string>) returns (out: seq<Manifest>)
    ensures out == Namespaces(nss) + SyncNamespaceObject(c, nss)
  {
    out := [];
    for i := 0 to |nss|
      invariant out == Namespaces(nss[..i])
    {
      out := out + [Manifest(Namespace, "", Text(nss[i]), Plain)];
      assert nss[..i + 1][..i] == nss[..i];
    }
    assert nss[..|nss|] == nss;
    if c.syncStart && SyncNamespace(c, nss) !in nss {
      out := out + [Manifest(Namespace, "", Text(SyncNamespace(c, nss)), Plain)];
    }
  }

  method BuildConfigMaps(c: Config, nss: seq<string>) returns (out: seq<Manifest>)
    ensures out == AllConfigMaps(c, nss)
  {
    out := [];
    for i := 0 to |nss|
      invariant out == AllConfigMaps(c, nss[..i])
    {
      out := out + [Manifest(ConfigMap, nss[i], Text(c.basename + "-system-configmap"), Plain),
                    Manifest(ConfigMap, nss[i], Text(c.basename + "-user-configmap"), Plain)];
      assert nss[..i + 1][..i] == nss[..i];
    }
    assert nss[..|nss|] == nss;
  }

  method BuildSecretsFor(c: Config, ns: string) returns (out: seq<Manifest>)
    ensures out == DeploymentSecrets(c, ns, c.deps)
  {
    out := [];
    for d := 0 to c.deps
      invariant out == DeploymentSecrets(c, ns, d)
    {
      var more := [];
      for k := 0 to c.secrets
        invariant more == SecretsOf(ns, c.first + d, k)
      {
        more := more + [Manifest(Secret, ns, SecretName(ns, c.first + d, k), Plain)];
      }
      out := out + more;
    }
  }

  lemma {:induction false} NoSecretsFor(c: Config, ns: string, n: nat)
    requires c.secrets == 0
    ensures DeploymentSecrets(c, ns, n) == []
  {
    if n > 0 { NoSecretsFor(c, ns, n - 1); }
  }

  lemma {:induction false} NoSecrets(c: Config, nss: seq<string>)
    requires c.secrets == 0
    ensures AllSecrets(c, nss) == []
  {
    if nss != [] {
      NoSecrets(c, nss[..|nss| - 1]);
      NoSecretsFor(c, nss[|nss| - 1], c.deps);
    }
  }

  method BuildSecrets(c: Config, nss: seq<string>) returns (out: seq<Manifest>)
    ensures out == AllSecrets(c, nss)
  {
    out := [];
    if c.secrets == 0 { NoSecrets(c, nss); }
    if c.secrets > 0 {
      for i := 0 to |nss|
        invariant out == AllSecrets(c, nss[..i])
      {
        var more := BuildSecretsFor(c, nss[i]);
        out := out + more;
        assert nss[..i + 1][..i] == nss[..i];
      }
      assert nss[..|nss|] == nss;
    }
  }

  method BuildAliases(c: Config, nss: seq<string>, target: Host) returns (out: seq<Manifest>)
    ensures out == Aliases(c, nss, target)
  {
    out := [];
    for i := 0 to |nss|
      invariant out == Aliases(c, nss[..i], target)
    {
      if nss[i] != target.namespace {
        out := out + [Manifest(Service, nss[i], Text(SyncService(c)), Alias(target))];
      }
      assert nss[..i + 1][..i] == nss[..i];
    }
    assert nss[..|nss|] == nss;
  }

  method BuildSync(c: Config, nss: seq<string>) returns (out: seq<Manifest>)
    ensures out == SyncObjects(c, nss)
  {
    out := [];
    var ns := SyncNamespace(c, nss);
    if ns !in nss {
      out := out + [Manifest(ConfigMap, ns, Text(c.basename + "-system-configmap"), Plain)];
    }
    out := out + [Manifest(Service, ns, Text(SyncService(c)), Plain)];
    out := out + [SyncPod(c, nss)];
    var aliases := BuildAliases(c, nss, SyncHost(c, nss));
    out := out + aliases;
  }

  method BuildManifestPlan(c: Config, nss: seq<string>) returns (manifests: seq<Manifest>)
    ensures manifests == Objects(c, nss)
  {
    manifests := BuildNamespaces(c, nss);
    var more := BuildConfigMaps(c, nss);
    manifests := manifests + more;
    more := BuildSecrets(c, nss);
    manifests := manifests + more;
    if c.syncStart {
      more := BuildSync(c, nss);
      manifests := manifests + more;
    }
    more := BuildWorkloads(c, nss, SyncHost(c, nss));
    manifests := manifests + more;
  }
}
