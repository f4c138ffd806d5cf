/**
 * The reconcile loop run against an in-memory stand-in for the clusters'
 * RBAC API: a table of RoleBindings that the loop reads and inserts into.
 */
module Reconciler {
  import opened Wrappers
  import opened RoleBindings
  import opened ReconcileSpec
  import ReconcileProperties

  class Fleet {
    /** Every RoleBinding in every cluster, by (cluster, namespace, name). */
    var table: Table
    /** Each client construction, Get and Create issued, in order. */
    var log: seq<Call>
    /** The log positions at which a call answers with an error. */
    const failing: set<nat>

    constructor (bindings: Table, failing: set<nat>)
      ensures table == bindings && log == [] && this.failing == failing
    {
      table := bindings;
      log := [];
      this.failing := failing;
    }

    function State(): World
      reads this
    {
      World(table, log)
    }

    /** Builds the client for a kubeconfig context; fails at the positions in `failing`. */
    method Connect(cluster: string) returns (session: Option<Session>)
      modifies this
      ensures (State(), session) == ConnectSpec(old(State()), failing, cluster)
    {
      var fails := |log| in failing;
      log := log + [ConnectCall(cluster)];
      if fails {
        session := None;
      } else {
        session := Some(Session(cluster));
      }
    }

    /** Reads the RoleBinding `name` in namespace `ns`. */
    method Get(s: Session, ns: string, name: string) returns (r: Result<RoleBinding, GetError>)
      modifies this
      ensures (State(), r) == GetSpec(old(State()), failing, s, ns, name)
    {
      var k := Key(s.cluster, ns, name);
      var fails := |log| in failing;
      log := log + [GetCall(k)];
      if fails {
        r := Failure(Unavailable);
      } else if k in table {
        r := Success(table[k]);
      } else {
        r := Failure(NotFound);
      }
    }

    /** Creates `b` in namespace `ns`; refuses to overwrite an existing binding. */
    method Create(s: Session, ns: string, b: RoleBinding) returns (r: Result<RoleBinding, CreateError>)
      modifies this
      ensures (State(), r) == CreateSpec(old(State()), failing, s, ns, b)
    {
      var k := Key(s.cluster, ns, b.name);
      var fails := |log| in failing;
      log := log + [CreateCall(k, b)];
      if fails {
        r := Failure(Rejected);
      } else if k in table {
        r := Failure(AlreadyExists);
      } else {
        table := table[k := b];
        r := Success(b);
      }
    }

    /** The inner loop: grant `user` admin in each namespace of `nss`, in order. */
    method ReconcileNamespaces(s: Session, user: string, nss: seq<string>) returns (outcome: Outcome)
      modifies this
      ensures Run(State(), outcome) == RunNamespaces(old(State()), failing, user, s, nss)
    {
      ghost var w0 := State();
      var i := 0;
      while i < |nss|
        invariant 0 <= i <= |nss|
        invariant RunNamespaces(w0, failing, user, s, nss[..i]) == Run(State(), Done)
      {
        assert nss[..i + 1][..i] == nss[..i];
        var ns := nss[i];
        var name := BindingName(user, ns);
        var got := Get(s, ns, name);
        if got.Success? {
          i := i + 1;
          continue;
        }
        var made := Create(s, ns, DesiredBinding(user, ns));
        if made.Failure? {
          outcome := Aborted(CreateFailed(Key(s.cluster, ns, name), made.error));
          ReconcileProperties.RunNamespacesAbortIsFinal(w0, failing, user, s, nss[..i + 1], nss[i + 1..]);
          assert nss[..i + 1] + nss[i + 1..] == nss;
          return;
        }
        i := i + 1;
      }
      assert nss[..i] == nss;
      outcome := Done;
    }

    /** The whole run: every cluster of the plan, in the iteration order `clusters`. */
    method Reconcile(user: string, plan: Plan, clusters: seq<string>) returns (outcome: Outcome)
      requires IsIterationOrder(plan, clusters)
      modifies this
      ensures Run(State(), outcome) == RunClusters(old(State()), failing, user, plan, clusters)
    {
      ghost var w0 := State();
      assert forall c :: c in clusters ==> c in plan;
      var j := 0;
      while j < |clusters|
        invariant 0 <= j <= |clusters|
        invariant RunClusters(w0, failing, user, plan, clusters[..j]) == Run(State(), Done)
      {
        var cluster := clusters[j];
        ghost var done := clusters[..j + 1];
        ghost var rest := clusters[j + 1..];
        assert done[..j] == clusters[..j] && done[j] == cluster;
        assert done + rest == clusters;
        var session := Connect(cluster);
        if session.None? {
          outcome := Aborted(SessionFailed(cluster));
          assert RunClusters(w0, failing, user, plan, done) == Run(State(), outcome);
          ReconcileProperties.RunClustersAbortIsFinal(w0, failing, user, plan, done, rest);
          return;
        }
        outcome := ReconcileNamespaces(session.value, user, plan[cluster]);
        assert RunClusters(w0, failing, user, plan, done) == Run(State(), outcome);
        if outcome.Aborted? {
          ReconcileProperties.RunClustersAbortIsFinal(w0, failing, user, plan, done, rest);
          return;
        }
        j := j + 1;
      }
      assert clusters[..j] == clusters;
      outcome := Done;
    }
  }
}
