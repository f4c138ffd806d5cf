/** Concrete runs of the reconcile loop. */
module Scenarios {
  import opened RoleBindings
  import opened ReconcileSpec
  import Reconciler
  import ReconcileProperties

  /** The user and the plan that the program has built in. */
  const BuiltInUser: string := "test_wtp"
  const BuiltInPlan: Plan := map["ed-ks1" := ["wgie-wtp-dataplatform"]]

  /**
   * The built-in configuration on clusters holding no bindings, without
   * failures: one session, one Get, and one Create of the admin binding
   * "test_wtp-wgie-wtp-dataplatform".
   */
  lemma BuiltInConfigurationRun()
    ensures var k := Key("ed-ks1", "wgie-wtp-dataplatform", "test_wtp-wgie-wtp-dataplatform");
      var b := RoleBinding("test_wtp-wgie-wtp-dataplatform",
                           [Subject("User", "test_wtp", "wgie-wtp-dataplatform")],
                           RoleRef("rbac.authorization.k8s.io", "ClusterRole", "admin"));
      RunClusters(World(map[], []), {}, BuiltInUser, BuiltInPlan, ["ed-ks1"])
      == Run(World(map[k := b], [ConnectCall("ed-ks1"), GetCall(k), CreateCall(k, b)]), Done)
  {
    var cls := ["ed-ks1"];
    assert cls[..0] == [];
    assert BuiltInUser + "-" + "wgie-wtp-dataplatform" == "test_wtp-wgie-wtp-dataplatform";
    var ns := ["wgie-wtp-dataplatform"];
    assert ns[..0] == [];
  }

  /**
   * Plan {"clusterA": ["team-x"]} for "alice" where "alice-team-x" is not
   * found: exactly one Create, of a binding named "alice-team-x" for User
   * "alice" of namespace "team-x" to ClusterRole "admin".
   */
  method AliceScenario()
  {
    var fleet := new Reconciler.Fleet(map[], {});
    var outcome := fleet.Reconcile("alice", map["clusterA" := ["team-x"]], ["clusterA"]);
    var k := Key("clusterA", "team-x", "alice-team-x");
    var b := RoleBinding("alice-team-x", [Subject("User", "alice", "team-x")],
                         RoleRef("rbac.authorization.k8s.io", "ClusterRole", "admin"));
    assert ["clusterA"][..0] == [];
    assert ["team-x"][..0] == [];
    assert "alice" + "-" + "team-x" == "alice-team-x";
    assert outcome == Done;
    assert fleet.log == [ConnectCall("clusterA"), GetCall(k), CreateCall(k, b)];
    assert fleet.table == map[k := b];
  }

  /**
   * Two clusters whose first session cannot be built: the run aborts after
   * that one attempt, and the second cluster is never contacted.
   */
  method FirstSessionFailsScenario()
  {
    var fleet := new Reconciler.Fleet(map[], {0});
    var outcome := fleet.Reconcile("alice", map["clusterA" := ["team-x"], "clusterB" := ["team-y"]],
                                   ["clusterA", "clusterB"]);
    assert ["clusterA", "clusterB"][..1] == ["clusterA"];
    assert ["clusterA"][..0] == [];
    ReconcileProperties.RunClustersAbortIsFinal(
      World(map[], []), {0}, "alice", map["clusterA" := ["team-x"], "clusterB" := ["team-y"]],
      ["clusterA"], ["clusterB"]);
    assert outcome == Aborted(SessionFailed("clusterA"));
    assert fleet.log == [ConnectCall("clusterA")];
    assert fleet.table == map[];
  }

  /** Running the same plan twice: the second run only looks, and changes nothing. */
  method RepeatedRunScenario()
  {
    var fleet := new Reconciler.Fleet(map[], {});
    var plan := map["clusterA" := ["team-x", "team-x"]];
    var first := fleet.Reconcile("alice", plan, ["clusterA"]);
    var afterFirst := fleet.State();
    ReconcileProperties.RunClustersWithoutFaultsCompletes(World(map[], []), {}, "alice", plan, ["clusterA"]);
    ReconcileProperties.ReconcileIsIdempotent(World(map[], []), {}, {}, "alice", plan, ["clusterA"], ["clusterA"]);
    var second := fleet.Reconcile("alice", plan, ["clusterA"]);
    assert first == Done && second == Done;
    assert fleet.table == afterFirst.table;
    assert forall i :: |afterFirst.log| <= i < |fleet.log| ==> !fleet.log[i].CreateCall?;
  }
}
