/**
 * What the reconcile loop does, as functions of the state of the clusters.
 *
 * The RoleBindings of every cluster form one table keyed by
 * (kubeconfig context, namespace, binding name). Each client construction,
 * Get and Create the loop issues is appended to a log, and each of them
 * answers with an error at the log positions listed in `failing`, whatever
 * the table holds: this is how the model lets client construction, Gets
 * and Creates fail for reasons it does not see.
 */
module ReconcileSpec {
  import opened Wrappers
  import opened RoleBindings

  datatype Key = Key(cluster: string, namespace: string, name: string)

  type Table = map<Key, RoleBinding>

  /** Cluster context name to the namespaces to grant in it, in order. */
  type Plan = map<string, seq<string>>

  /** An authenticated client for one cluster context. */
  datatype Session = Session(cluster: string)

  datatype Call =
    | ConnectCall(cluster: string)
    | GetCall(key: Key)
    | CreateCall(key: Key, binding: RoleBinding)

  datatype World = World(table: Table, log: seq<Call>)

  datatype GetError = NotFound | Unavailable

  datatype CreateError = AlreadyExists | Rejected

  /** Why a run stopped: the points where the source panics. */
  datatype Fatal =
    | SessionFailed(cluster: string)
    | CreateFailed(key: Key, cause: CreateError)

  datatype Outcome = Done | Aborted(fatal: Fatal)

  datatype Run = Run(world: World, outcome: Outcome)

  /** The key the loop looks up, and creates, for `user` in namespace `ns` of `cluster`. */
  function PlannedKey(user: string, cluster: string, ns: string): Key
  {
    Key(cluster, ns, BindingName(user, ns))
  }

  /** No call at position `n` or later fails spuriously. */
  ghost predicate NoFaultsFrom(failing: set<nat>, n: nat)
  {
    forall i :: i in failing ==> i < n
  }

  // ---- The three primitives of the cluster API ----

  /** Building the client configuration and the client set for a context. */
  function ConnectSpec(w: World, failing: set<nat>, cluster: string): (r: (World, Option<Session>))
    ensures r.0.table == w.table
    ensures r.0.log == w.log + [ConnectCall(cluster)]
    ensures r.1.Some? <==> |w.log| !in failing
    ensures r.1.Some? ==> r.1.value.cluster == cluster
  {
    var w' := World(w.table, w.log + [ConnectCall(cluster)]);
    if |w.log| in failing then (w', None) else (w', Some(Session(cluster)))
  }

  /** Reading a RoleBinding by namespace and name; never changes the table. */
  function GetSpec(w: World, failing: set<nat>, s: Session, ns: string, name: string)
    : (r: (World, Result<RoleBinding, GetError>))
    ensures r.0.table == w.table
    ensures r.0.log == w.log + [GetCall(Key(s.cluster, ns, name))]
    ensures r.1.Success? <==> |w.log| !in failing && Key(s.cluster, ns, name) in w.table
    ensures r.1.Success? ==> r.1.value == w.table[Key(s.cluster, ns, name)]
    ensures r.1 == Failure(NotFound) <==> |w.log| !in failing && Key(s.cluster, ns, name) !in w.table
  {
    var k := Key(s.cluster, ns, name);
    var w' := World(w.table, w.log + [GetCall(k)]);
    if |w.log| in failing then (w', Failure(Unavailable))
    else if k in w.table then (w', Success(w.table[k]))
    else (w', Failure(NotFound))
  }

  /** Creating a RoleBinding in a namespace; fails rather than overwrite an existing one. */
  function CreateSpec(w: World, failing: set<nat>, s: Session, ns: string, b: RoleBinding)
    : (r: (World, Result<RoleBinding, CreateError>))
    ensures r.0.log == w.log + [CreateCall(Key(s.cluster, ns, b.name), b)]
    ensures r.1.Success? <==> |w.log| !in failing && Key(s.cluster, ns, b.name) !in w.table
    ensures r.0.table == if r.1.Success? then w.table[Key(s.cluster, ns, b.name) := b] else w.table
    ensures Key(s.cluster, ns, b.name) in w.table ==> r.0.table == w.table
  {
    var k := Key(s.cluster, ns, b.name);
    var log' := w.log + [CreateCall(k, b)];
    if |w.log| in failing then (World(w.table, log'), Failure(Rejected))
    else if k in w.table then (World(w.table, log'), Failure(AlreadyExists))
    else (World(w.table[k := b], log'), Success(b))
  }

  // ---- The reconcile loop ----

  /**
   * One namespace: look the binding up; if the lookup succeeds, leave it;
   * if it fails for any reason, create the desired binding, and abort if
   * that fails. It keeps every entry, may only add the desired binding under
   * the planned key, and leaves that key present unless it aborts.
   */
  function StepNamespace(w: World, failing: set<nat>, user: string, s: Session, ns: string): (r: Run)
    ensures Extends(w.table, r.world.table)
    ensures w.log < r.world.log
    ensures r.outcome == Done ==> PlannedKey(user, s.cluster, ns) in r.world.table
    ensures r.outcome.Aborted? ==> r.outcome.fatal.CreateFailed? && r.outcome.fatal.key == PlannedKey(user, s.cluster, ns)
    ensures forall k :: k in r.world.table && k !in w.table ==>
              k == PlannedKey(user, s.cluster, ns) && r.world.table[k] == DesiredBinding(user, ns)
  {
    var name := BindingName(user, ns);
    var (w1, got) := GetSpec(w, failing, s, ns, name);
    if got.Success? then Run(w1, Done)
    else
      var (w2, made) := CreateSpec(w1, failing, s, ns, DesiredBinding(user, ns));
      if made.Success? then Run(w2, Done)
      else Run(w2, Aborted(CreateFailed(Key(s.cluster, ns, name), made.error)))
  }

  /** The namespaces of one cluster, in list order, stopping at the first abort. */
  function RunNamespaces(w: World, failing: set<nat>, user: string, s: Session, nss: seq<string>): (r: Run)
    ensures Extends(w.table, r.world.table)
    ensures w.log <= r.world.log
    ensures nss == [] ==> r == Run(w, Done)
    ensures r.outcome.Aborted? ==> r.outcome.fatal.CreateFailed?
    decreases |nss|
  {
    if nss == [] then Run(w, Done)
    else
      var before := RunNamespaces(w, failing, user, s, nss[..|nss| - 1]);
      if before.outcome.Aborted? then before
      else StepNamespace(before.world, failing, user, s, nss[|nss| - 1])
  }

  /**
   * One cluster: build its client, aborting if that fails, then do its
   * namespaces. The client construction comes before any Get or Create.
   */
  function StepCluster(w: World, failing: set<nat>, user: string, cluster: string, nss: seq<string>): (r: Run)
    ensures Extends(w.table, r.world.table)
    ensures w.log + [ConnectCall(cluster)] <= r.world.log
    ensures r.outcome == Aborted(SessionFailed(cluster)) <==> |w.log| in failing
    ensures |w.log| in failing ==> r.world == World(w.table, w.log + [ConnectCall(cluster)])
  {
    var (w1, session) := ConnectSpec(w, failing, cluster);
    if session.None? then Run(w1, Aborted(SessionFailed(cluster)))
    else RunNamespaces(w1, failing, user, session.value, nss)
  }

  /** The clusters of the plan in the order `cls`, stopping at the first abort. */
  function RunClusters(w: World, failing: set<nat>, user: string, plan: Plan, cls: seq<string>): (r: Run)
    requires forall c :: c in cls ==> c in plan
    ensures Extends(w.table, r.world.table)
    ensures w.log <= r.world.log
    ensures cls == [] ==> r == Run(w, Done)
    decreases |cls|
  {
    if cls == [] then Run(w, Done)
    else
      var before := RunClusters(w, failing, user, plan, cls[..|cls| - 1]);
      if before.outcome.Aborted? then before
      else StepCluster(before.world, failing, user, cls[|cls| - 1], plan[cls[|cls| - 1]])
  }

  /** `cls` lists every cluster of the plan exactly once: one possible map iteration order. */
  ghost predicate IsIterationOrder(plan: Plan, cls: seq<string>)
  {
    && (forall c :: c in plan <==> c in cls)
    && (forall i, j :: 0 <= i < j < |cls| ==> cls[i] != cls[j])
  }

  // ---- Predicates for the properties ----

  /** Every entry of `t` is still in `t'`, unchanged. */
  ghost predicate Extends(t: Table, t': Table)
  {
    forall k :: k in t ==> k in t' && t'[k] == t[k]
  }

  /** Every (cluster, namespace) pair of the plan, over clusters `cls`, has a binding under its planned name. */
  ghost predicate Covered(t: Table, user: string, plan: Plan, cls: seq<string>)
  {
    forall c, ns :: c in cls && c in plan && ns in plan[c] ==> PlannedKey(user, c, ns) in t
  }

  /** The Get calls, in order, that a run over `nss` makes when every binding already exists. */
  function GetsFor(user: string, cluster: string, nss: seq<string>): (calls: seq<Call>)
    ensures |calls| == |nss|
    ensures forall i :: 0 <= i < |nss| ==> calls[i] == GetCall(PlannedKey(user, cluster, nss[i]))
    decreases |nss|
  {
    if nss == [] then []
    else GetsFor(user, cluster, nss[..|nss| - 1]) + [GetCall(PlannedKey(user, cluster, nss[|nss| - 1]))]
  }

  /** The Get calls of a log, in order. */
  function GetsIn(log: seq<Call>): (gets: seq<Call>)
    ensures |gets| <= |log|
    ensures forall c :: c in gets ==> c in log && c.GetCall?
  {
    if log == [] then []
    else (if log[0].GetCall? then [log[0]] else []) + GetsIn(log[1..])
  }

  /** The number of Create calls for key `k` in a log. */
  function CreatesOf(log: seq<Call>, k: Key): (n: nat)
    ensures n <= |log|
    decreases |log|
  {
    if log == [] then 0
    else
      var last := log[|log| - 1];
      CreatesOf(log[..|log| - 1], k) + (if last.CreateCall? && last.key == k then 1 else 0)
  }
}
