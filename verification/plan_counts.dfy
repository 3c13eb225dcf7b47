/** The closed-form client counts given to the sync pod against the containers the plan really creates: both counted
    over the same list of objects. */
module PlanCounts {
  import opened Plan

  /** What is counted: containers that check in when they start, or processes that take part in every later round.
      A server takes part in no later round; a client container runs one process. */
  datatype Measure = Starting | Working(processes: nat)

  function Weigh(what: Measure, load: Load): nat {
    match load
    case DropCache(_) => if what.Starting? then 1 else 0
    case Worker(role, containers, _) =>
      if what.Starting? then containers
      else if role.Single? then containers * what.processes
      else if role.Client? then containers else 0
    case _ => 0
  }

  function Total(what: Measure, ms: seq<Manifest>): nat {
    if ms == [] then 0 else Total(what, ms[..|ms| - 1]) + Weigh(what, ms[|ms| - 1].load)
  }

  lemma {:induction false} TotalAppend(what: Measure, a: seq<Manifest>, b: seq<Manifest>)
    ensures Total(what, a + b) == Total(what, a) + Total(what, b)
  {
    if b == [] {
      assert a + b == a;
    } else {
      assert (a + b)[..|a + b| - 1] == a + b[..|b| - 1];
      TotalAppend(what, a, b[..|b| - 1]);
    }
  }

  /** No container of the list takes part in the synchronisation. */
  ghost predicate Idle(ms: seq<Manifest>) {
    forall i :: 0 <= i < |ms| ==> !ms[i].load.Worker? && !ms[i].load.DropCache?
  }

  lemma {:induction false} IdleTotal(what: Measure, ms: seq<Manifest>)
    requires Idle(ms)
    ensures Total(what, ms) == 0
  {
    if ms != [] { IdleTotal(what, ms[..|ms| - 1]); }
  }

  lemma {:induction false} IdleLists(c: Config, nss: seq<string>, target: Host)
    ensures Idle(Namespaces(nss)) && Idle(AllConfigMaps(c, nss)) && Idle(AllSecrets(c, nss))
    ensures Idle(Aliases(c, nss, target))
  {
    if nss != [] {
      IdleLists(c, nss[..|nss| - 1], target);
      IdleSecrets(c, nss[|nss| - 1], c.deps);
    }
  }

  lemma {:induction false} IdleSecrets(c: Config, ns: string, n: nat)
    ensures Idle(DeploymentSecrets(c, ns, n))
  {
    if n > 0 {
      IdleSecrets(c, ns, n - 1);
      IdleSecretList(ns, c.first + n - 1, c.secrets);
    }
  }

  lemma {:induction false} IdleSecretList(ns: string, dep: nat, n: nat)
    ensures Idle(SecretsOf(ns, dep, n))
  {
    if n > 0 { IdleSecretList(ns, dep, n - 1); }
  }

  /** What one object of a role weighs. */
  function PerObject(what: Measure, c: Config, role: Role): nat {
    var containers := if c.deployAs.AsVm? then 1 else c.containers;
    if what.Starting? then containers
    else if role.Single? then containers * what.processes
    else if role.Client? then containers else 0
  }

  function PerDeployment(what: Measure, c: Config): nat {
    (if c.dropCache && what.Starting? then c.replicas else 0)
    + if c.clientServer then PerObject(what, c, Server) + c.replicas * PerObject(what, c, Client)
      else c.replicas * PerObject(what, c, Single)
  }

  lemma {:induction false} Distribute(n: nat, x: nat)
    requires n > 0
    ensures n * x == (n - 1) * x + x
  {
  }

  lemma {:induction false} ObjectWeight(what: Measure, c: Config, ns: string, role: Role, dep: nat, host: Host, k: nat)
    ensures Weigh(what, WorkerObject(c, ns, role, dep, host, k).load) == PerObject(what, c, role)
  {
  }

  lemma {:induction false} TotalWorkers(what: Measure, c: Config, ns: string, role: Role, dep: nat, host: Host,
                                        n: nat, x: nat)
    requires x == PerObject(what, c, role)
    ensures Total(what, WorkerObjects(c, ns, role, dep, host, n)) == n * x
  {
    if n > 0 {
      var front := WorkerObjects(c, ns, role, dep, host, n - 1);
      TotalWorkers(what, c, ns, role, dep, host, n - 1, x);
      ObjectWeight(what, c, ns, role, dep, host, n);
      TotalStep(what, front, WorkerObject(c, ns, role, dep, host, n));
      Distribute(n, x);
    }
  }

  lemma {:induction false} TotalStep(what: Measure, front: seq<Manifest>, m: Manifest)
    ensures Total(what, front + [m]) == Total(what, front) + Weigh(what, m.load)
  {
    assert (front + [m])[..|front|] == front;
  }

  lemma {:induction false} TotalDropCache(what: Measure, c: Config, ns: string, dep: nat, host: Host, n: nat)
    ensures Total(what, DropCachePods(c, ns, dep, host, n)) == if what.Starting? then n else 0
  {
    if n > 0 {
      var ms := DropCachePods(c, ns, dep, host, n);
      assert ms[..|ms| - 1] == DropCachePods(c, ns, dep, host, n - 1);
      TotalDropCache(what, c, ns, dep, host, n - 1);
    }
  }

  lemma {:induction false} TotalRoles(what: Measure, c: Config, ns: string, dep: nat, host: Host)
    ensures Total(what, Workers(c, ns, dep, host)) ==
      if c.clientServer then PerObject(what, c, Server) + c.replicas * PerObject(what, c, Client)
      else c.replicas * PerObject(what, c, Single)
  {
    if c.clientServer {
      TotalWorkers(what, c, ns, Server, dep, host, 1, PerObject(what, c, Server));
      TotalWorkers(what, c, ns, Client, dep, host, c.replicas, PerObject(what, c, Client));
      TotalAppend(what, WorkerObjects(c, ns, Server, dep, host, 1), WorkerObjects(c, ns, Client, dep, host, c.replicas));
    } else {
      TotalWorkers(what, c, ns, Single, dep, host, c.replicas, PerObject(what, c, Single));
    }
  }

  lemma {:induction false} TotalThree(what: Measure, x: seq<Manifest>, y: seq<Manifest>, z: seq<Manifest>)
    ensures Total(what, x + y + z) == Total(what, x) + Total(what, y) + Total(what, z)
  {
    TotalAppend(what, x, y);
    TotalAppend(what, x + y, z);
  }

  lemma {:induction false} TotalCaches(what: Measure, c: Config, ns: string, dep: nat, host: Host)
    ensures Total(what, Caches(c, ns, dep, host)) == if c.dropCache && what.Starting? then c.replicas else 0
  {
    if c.dropCache { TotalDropCache(what, c, ns, dep, host, c.replicas); }
  }

  lemma {:induction false} TotalServices(what: Measure, c: Config, ns: string, dep: nat)
    ensures Total(what, ServerServices(c, ns, dep)) == 0
  {
    IdleTotal(what, ServerServices(c, ns, dep));
  }

  lemma {:induction false} TotalDeployment(what: Measure, c: Config, ns: string, dep: nat, host: Host)
    ensures Total(what, DeploymentObjects(c, ns, dep, host)) == PerDeployment(what, c)
  {
    TotalCaches(what, c, ns, dep, host);
    TotalServices(what, c, ns, dep);
    TotalRoles(what, c, ns, dep, host);
    TotalThree(what, Caches(c, ns, dep, host), ServerServices(c, ns, dep), Workers(c, ns, dep, host));
  }

  /** Every deployment weighs x. */
  ghost predicate Uniform(what: Measure, c: Config, host: Host, x: nat) {
    forall ns: string, dep: nat :: Total(what, DeploymentObjects(c, ns, dep, host)) == x
  }

  lemma {:induction false} TotalDeployments(what: Measure, c: Config, ns: string, host: Host, n: nat, x: nat)
    requires Uniform(what, c, host, x)
    ensures Total(what, Deployments(c, ns, host, n)) == n * x
  {
    if n > 0 {
      TotalDeployments(what, c, ns, host, n - 1, x);
      OneMore(what, c, ns, host, n, x, n * x);
    }
  }

  lemma {:induction false} OneMore(what: Measure, c: Config, ns: string, host: Host, n: nat, x: nat, product: int)
    requires n > 0 && Uniform(what, c, host, x) && product == n * x
    requires Total(what, Deployments(c, ns, host, n - 1)) == (n - 1) * x
    ensures Total(what, Deployments(c, ns, host, n)) == product
  {
    Distribute(n, x);
    var piece, dep := DeploymentsStep(c, ns, host, n);
    TotalAppend(what, Deployments(c, ns, host, n - 1), piece);
  }

  lemma {:induction false} TotalWorkloads(what: Measure, c: Config, nss: seq<string>, host: Host, x: nat)
    requires Uniform(what, c, host, x)
    ensures Total(what, Workloads(c, nss, host)) == |nss| * (c.deps * x)
  {
    if nss != [] {
      var front := nss[..|nss| - 1];
      TotalWorkloads(what, c, front, host, x);
      TotalDeployments(what, c, nss[|nss| - 1], host, c.deps, x);
      TotalAppend(what, Workloads(c, front, host), Deployments(c, nss[|nss| - 1], host, c.deps));
      Distribute(|nss|, c.deps * x);
    }
  }

  lemma {:induction false} IdleAppend(a: seq<Manifest>, b: seq<Manifest>)
    requires Idle(a) && Idle(b)
    ensures Idle(a + b)
  {
  }

  lemma {:induction false} IdleSync(c: Config, nss: seq<string>)
    ensures Idle(SyncObjects(c, nss))
  {
    IdleLists(c, nss, SyncHost(c, nss));
  }

  lemma {:induction false} TotalInfrastructure(what: Measure, c: Config, nss: seq<string>, workloads: seq<Manifest>)
    requires workloads == Workloads(c, nss, SyncHost(c, nss))
    ensures Total(what, Objects(c, nss)) == Total(what, workloads)
  {
    var a, b, m, s := Namespaces(nss), SyncNamespaceObject(c, nss), AllConfigMaps(c, nss), AllSecrets(c, nss);
    var sync := if c.syncStart then SyncObjects(c, nss) else [];
    IdleLists(c, nss, SyncHost(c, nss));
    IdleSync(c, nss);
    IdleAppend(a, b);
    IdleAppend(a + b, m);
    IdleAppend(a + b + m, s);
    IdleAppend(a + b + m + s, sync);
    IdleTotal(what, a + b + m + s + sync);
    TotalAppend(what, a + b + m + s + sync, workloads);
  }

  lemma {:induction false} TotalObjects(what: Measure, c: Config, nss: seq<string>, x: nat)
    requires x == PerDeployment(what, c)
    ensures Total(what, Objects(c, nss)) == |nss| * (c.deps * x)
  {
    var host := SyncHost(c, nss);
    forall ns: string, dep: nat ensures Total(what, DeploymentObjects(c, ns, dep, host)) == x {
      TotalDeployment(what, c, ns, dep, host);
    }
    TotalWorkloads(what, c, nss, host, x);
    TotalInfrastructure(what, c, nss, Workloads(c, nss, host));
  }

  // The arithmetic of the closed forms: n namespaces, d deployments, r replicas, k containers.

  lemma {:induction false} Reorder(n: nat, d: nat, x: nat)
    ensures x * d * n == n * (d * x)
  {
    assert x * d == d * x;
    assert (x * d) * n == n * (x * d);
  }

  lemma {:induction false} Cancel(n: nat, d: nat, x: nat, y: nat)
    ensures n * (d * x) == n * (d * y) <==> n == 0 || d == 0 || x == y
  {
    if n > 0 && d > 0 && x < y { assert d * (y - x) > 0; assert n * (d * (y - x)) > 0; }
    if n > 0 && d > 0 && y < x { assert d * (x - y) > 0; assert n * (d * (x - y)) > 0; }
  }

  lemma {:induction false} ServerCounts(n: nat, d: nat, r: nat, k: nat, caches: nat)
    ensures (k * r * d + d) * n == n * (d * (caches + (k + r * k))) <==> n == 0 || d == 0 || k + caches == 1
  {
    assert k * r * d + d == (k * r + 1) * d;
    Reorder(n, d, k * r + 1);
    assert r * k == k * r;
    Cancel(n, d, k * r + 1, caches + (k + k * r));
  }

  lemma {:induction false} SingleCounts(n: nat, d: nat, r: nat, k: nat, one: nat)
    requires one <= 1
    ensures (k + one) * r * d * n == n * (d * ((if one == 1 then r else 0) + r * k))
  {
    Reorder(n, d, (k + one) * r);
    assert (k + one) * r == (if one == 1 then r else 0) + r * k;
  }

  lemma {:induction false} WorkingCounts(n: nat, d: nat, r: nat, k: nat, p: nat)
    ensures k * r * p * d * n == n * (d * (r * (k * p)))
  {
    Reorder(n, d, k * r * p);
    assert k * r * p == r * (k * p) by { assert k * r == r * k; assert (r * k) * p == r * (k * p); }
  }

  lemma {:induction false} ClientCounts(n: nat, d: nat, r: nat, k: nat)
    ensures k * r * d * n == n * (d * (r * k))
  {
    Reorder(n, d, k * r);
    assert k * r == r * k;
  }

  /** config.py refuses several containers in a virtual machine. */
  predicate Accepted(c: Config) {
    c.deployAs.AsVm? ==> c.containers == 1
  }

  lemma {:induction false} ServerInitial(c: Config, nss: seq<string>, x: nat)
    requires Accepted(c) && c.clientServer && x == PerDeployment(Starting, c)
    ensures Initial(c, nss) == |nss| * (c.deps * x) <==>
      nss == [] || c.deps == 0 || c.containers + (if c.dropCache then c.replicas else 0) == 1
  {
    ServerCounts(|nss|, c.deps, c.replicas, c.containers, if c.dropCache then c.replicas else 0);
    assert x == (if c.dropCache then c.replicas else 0) + (c.containers + c.replicas * c.containers);
  }

  lemma {:induction false} SingleInitial(c: Config, nss: seq<string>, x: nat)
    requires Accepted(c) && !c.clientServer && x == PerDeployment(Starting, c)
    ensures Initial(c, nss) == |nss| * (c.deps * x)
  {
    SingleCounts(|nss|, c.deps, c.replicas, c.containers, if c.dropCache then 1 else 0);
    assert x == (if c.dropCache then c.replicas else 0) + c.replicas * c.containers;
  }

  lemma {:induction false} ServerExpected(c: Config, nss: seq<string>, x: nat)
    requires Accepted(c) && c.clientServer && x == PerDeployment(Working(c.processes), c)
    ensures Expected(c, nss) == |nss| * (c.deps * x)
  {
    ClientCounts(|nss|, c.deps, c.replicas, c.containers);
    assert x == c.replicas * c.containers;
  }

  lemma {:induction false} SingleExpected(c: Config, nss: seq<string>, x: nat)
    requires Accepted(c) && !c.clientServer && x == PerDeployment(Working(c.processes), c)
    ensures Expected(c, nss) == |nss| * (c.deps * x)
  {
    WorkingCounts(|nss|, c.deps, c.replicas, c.containers, c.processes);
    assert x == c.replicas * (c.containers * c.processes);
  }

  /** The first round waits for exactly the containers that will check in, for every single-role workload; for a
      client/server workload exactly if the one server pod has one container and no drop-cache pods are added. */
  lemma {:induction false} InitialCountExactly(c: Config, nss: seq<string>)
    requires Accepted(c)
    ensures Initial(c, nss) == Total(Starting, Objects(c, nss)) <==>
      !c.clientServer || nss == [] || c.deps == 0 || c.containers + (if c.dropCache then c.replicas else 0) == 1
  {
    var x := PerDeployment(Starting, c);
    TotalObjects(Starting, c, nss, x);
    if c.clientServer { ServerInitial(c, nss, x); } else { SingleInitial(c, nss, x); }
  }

  /** Every later round waits for exactly the processes that take part in it. */
  lemma {:induction false} ExpectedCount(c: Config, nss: seq<string>)
    requires Accepted(c)
    ensures Expected(c, nss) == Total(Working(c.processes), Objects(c, nss))
  {
    var x := PerDeployment(Working(c.processes), c);
    TotalObjects(Working(c.processes), c, nss, x);
    if c.clientServer { ServerExpected(c, nss, x); } else { SingleExpected(c, nss, x); }
  }
}
