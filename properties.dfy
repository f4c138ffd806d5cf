/** What the reconcile loop guarantees, proved about its specification. */
module ReconcileProperties {
  import opened Wrappers
  import opened RoleBindings
  import opened ReconcileSpec

  // ---- One namespace ----

  /** A successful Get means no Create: the existing binding stays as it is, whatever it holds. */
  lemma ExistingBindingIsLeftAlone(w: World, failing: set<nat>, user: string, s: Session, ns: string)
    requires |w.log| !in failing
    requires PlannedKey(user, s.cluster, ns) in w.table
    ensures StepNamespace(w, failing, user, s, ns)
         == Run(World(w.table, w.log + [GetCall(PlannedKey(user, s.cluster, ns))]), Done)
  {
  }

  /**
   * A failed Get, for whatever reason, means exactly one Create of the
   * desired binding under the planned key; it succeeds exactly when the key
   * is free and the call does not fail, and only then is anything inserted.
   */
  lemma MissingBindingIsCreated(w: World, failing: set<nat>, user: string, s: Session, ns: string)
    requires |w.log| in failing || PlannedKey(user, s.cluster, ns) !in w.table
    ensures var k := PlannedKey(user, s.cluster, ns);
            var b := DesiredBinding(user, ns);
            var r := StepNamespace(w, failing, user, s, ns);
            && r.world.log == w.log + [GetCall(k), CreateCall(k, b)]
            && (r.outcome == Done <==> |w.log| + 1 !in failing && k !in w.table)
            && r.world.table == (if r.outcome == Done then w.table[k := b] else w.table)
            && (r.outcome != Done ==>
                  r.outcome == Aborted(CreateFailed(k, if |w.log| + 1 in failing then Rejected else AlreadyExists)))
  {
    var k := PlannedKey(user, s.cluster, ns);
    assert DesiredBinding(user, ns).name == k.name;
  }

  /**
   * The loop does not tell "not found" from other Get errors: a transient
   * Get error on a binding that exists leads to a Create, which fails
   * because the binding exists, and the run aborts.
   */
  lemma TransientGetErrorOnExistingBindingAborts(w: World, failing: set<nat>, user: string, s: Session, ns: string)
    requires |w.log| in failing && |w.log| + 1 !in failing
    requires PlannedKey(user, s.cluster, ns) in w.table
    ensures var k := PlannedKey(user, s.cluster, ns);
            StepNamespace(w, failing, user, s, ns)
            == Run(World(w.table, w.log + [GetCall(k), CreateCall(k, DesiredBinding(user, ns))]),
                Aborted(CreateFailed(k, AlreadyExists)))
  {
    MissingBindingIsCreated(w, failing, user, s, ns);
  }

  // ---- The namespaces of one cluster ----

  /** Once the run over `xs` has aborted, the namespaces after them change nothing and are never contacted. */
  lemma {:induction false} RunNamespacesAbortIsFinal(
    w: World, failing: set<nat>, user: string, s: Session, xs: seq<string>, ys: seq<string>)
    requires RunNamespaces(w, failing, user, s, xs).outcome.Aborted?
    ensures RunNamespaces(w, failing, user, s, xs + ys) == RunNamespaces(w, failing, user, s, xs)
    decreases |ys|
  {
    if ys == [] {
      assert xs + ys == xs;
    } else {
      var zs := xs + ys;
      assert zs[..|zs| - 1] == xs + ys[..|ys| - 1];
      RunNamespacesAbortIsFinal(w, failing, user, s, xs, ys[..|ys| - 1]);
    }
  }

  /**
   * A Create failure aborts the run: the failing key gets nothing, and no
   * later namespace is looked at.
   */
  lemma CreateFailureAbortsRun(
    w: World, failing: set<nat>, user: string, s: Session, xs: seq<string>, ns: string, ys: seq<string>)
    requires RunNamespaces(w, failing, user, s, xs).outcome == Done
    requires var prev := RunNamespaces(w, failing, user, s, xs).world;
             |prev.log| in failing || PlannedKey(user, s.cluster, ns) !in prev.table
    requires var prev := RunNamespaces(w, failing, user, s, xs).world;
             |prev.log| + 1 in failing || PlannedKey(user, s.cluster, ns) in prev.table
    ensures var prev := RunNamespaces(w, failing, user, s, xs).world;
            var k := PlannedKey(user, s.cluster, ns);
            RunNamespaces(w, failing, user, s, xs + [ns] + ys)
            == Run(World(prev.table, prev.log + [GetCall(k), CreateCall(k, DesiredBinding(user, ns))]),
                Aborted(CreateFailed(k, if |prev.log| + 1 in failing then Rejected else AlreadyExists)))
  {
    var prev := RunNamespaces(w, failing, user, s, xs).world;
    MissingBindingIsCreated(prev, failing, user, s, ns);
    assert (xs + [ns])[..|xs|] == xs;
    RunNamespacesAbortIsFinal(w, failing, user, s, xs + [ns], ys);
  }

  /**
   * The run only reads and inserts: every entry it found is still there
   * unchanged, the log only grows, and every new entry is the desired
   * binding under the planned key of a listed namespace of this cluster.
   */
  lemma {:induction false} RunNamespacesOnlyInserts(
    w: World, failing: set<nat>, user: string, s: Session, nss: seq<string>)
    ensures var r := RunNamespaces(w, failing, user, s, nss);
            && Extends(w.table, r.world.table)
            && w.log <= r.world.log
            && (forall k :: k in r.world.table && k !in w.table ==>
                  && k.namespace in nss
                  && k == PlannedKey(user, s.cluster, k.namespace)
                  && r.world.table[k] == DesiredBinding(user, k.namespace))
    decreases |nss|
  {
    if nss != [] {
      var init, ns := nss[..|nss| - 1], nss[|nss| - 1];
      RunNamespacesOnlyInserts(w, failing, user, s, init);
      var before := RunNamespaces(w, failing, user, s, init);
      if before.outcome == Done {
        assert forall x :: x in init ==> x in nss;
      }
    }
  }

  /** After a run that did not abort, every listed namespace has a binding under its planned name. */
  lemma {:induction false} RunNamespacesCovers(
    w: World, failing: set<nat>, user: string, s: Session, nss: seq<string>)
    requires RunNamespaces(w, failing, user, s, nss).outcome == Done
    ensures forall ns :: ns in nss ==> PlannedKey(user, s.cluster, ns) in RunNamespaces(w, failing, user, s, nss).world.table
    decreases |nss|
  {
    if nss != [] {
      var init, ns := nss[..|nss| - 1], nss[|nss| - 1];
      var before := RunNamespaces(w, failing, user, s, init);
      RunNamespacesCovers(w, failing, user, s, init);
      assert nss == init + [ns];
    }
  }

  /**
   * Over a table that already holds every planned binding, the run changes
   * nothing; without spurious failures it makes exactly one Get per listed
   * namespace, in list order, and no Create.
   */
  lemma {:induction false} RunNamespacesOnCovered(
    w: World, failing: set<nat>, user: string, s: Session, nss: seq<string>)
    requires forall ns :: ns in nss ==> PlannedKey(user, s.cluster, ns) in w.table
    ensures RunNamespaces(w, failing, user, s, nss).world.table == w.table
    ensures NoFaultsFrom(failing, |w.log|) ==>
              RunNamespaces(w, failing, user, s, nss)
              == Run(World(w.table, w.log + GetsFor(user, s.cluster, nss)), Done)
    decreases |nss|
  {
    if nss != [] {
      var init, ns := nss[..|nss| - 1], nss[|nss| - 1];
      assert forall x :: x in init ==> x in nss;
      RunNamespacesOnCovered(w, failing, user, s, init);
      var before := RunNamespaces(w, failing, user, s, init);
      if before.outcome == Done {
        if |before.world.log| !in failing {
          ExistingBindingIsLeftAlone(before.world, failing, user, s, ns);
        } else {
          MissingBindingIsCreated(before.world, failing, user, s, ns);
        }
        if NoFaultsFrom(failing, |w.log|) {
          assert before.world.log == w.log + GetsFor(user, s.cluster, init);
          assert w.log + GetsFor(user, s.cluster, init) + [GetCall(PlannedKey(user, s.cluster, ns))]
              == w.log + GetsFor(user, s.cluster, nss);
        }
      }
    }
  }

  /** Without spurious failures the run over a cluster's namespaces never aborts. */
  lemma {:induction false} RunNamespacesWithoutFaultsCompletes(
    w: World, failing: set<nat>, user: string, s: Session, nss: seq<string>)
    requires NoFaultsFrom(failing, |w.log|)
    ensures RunNamespaces(w, failing, user, s, nss).outcome == Done
    decreases |nss|
  {
    if nss != [] {
      var init, ns := nss[..|nss| - 1], nss[|nss| - 1];
      RunNamespacesWithoutFaultsCompletes(w, failing, user, s, init);
      RunNamespacesOnlyInserts(w, failing, user, s, init);
      var before := RunNamespaces(w, failing, user, s, init);
      if PlannedKey(user, s.cluster, ns) !in before.world.table {
        MissingBindingIsCreated(before.world, failing, user, s, ns);
      }
    }
  }

  /** What a log gained since `a` is what it gained up to `b` and then after `b`. */
  lemma SuffixSplit(a: seq<Call>, b: seq<Call>, c: seq<Call>)
    requires a <= b <= c
    ensures c[|a|..] == b[|a|..] + c[|b|..]
  {
    assert c == b + c[|b|..];
  }

  /** The Gets of a log split at any point are those of the two parts. */
  lemma {:induction false} GetsInAppend(a: seq<Call>, b: seq<Call>)
    ensures GetsIn(a + b) == GetsIn(a) + GetsIn(b)
    decreases |a|
  {
    if a != [] {
      assert (a + b)[1..] == a[1..] + b;
      GetsInAppend(a[1..], b);
    } else {
      assert a + b == b;
    }
  }

  /** One namespace makes exactly one Get, for its planned key. */
  lemma StepNamespaceGets(w: World, failing: set<nat>, user: string, s: Session, ns: string)
    ensures var r := StepNamespace(w, failing, user, s, ns);
      && |w.log| <= |r.world.log|
      && GetsIn(r.world.log[|w.log|..]) == [GetCall(PlannedKey(user, s.cluster, ns))]
  {
    var k := PlannedKey(user, s.cluster, ns);
    var r := StepNamespace(w, failing, user, s, ns);
    if |w.log| !in failing && k in w.table {
      ExistingBindingIsLeftAlone(w, failing, user, s, ns);
      assert r.world.log[|w.log|..] == [GetCall(k)];
    } else {
      MissingBindingIsCreated(w, failing, user, s, ns);
      var tail := [GetCall(k), CreateCall(k, DesiredBinding(user, ns))];
      assert r.world.log[|w.log|..] == tail;
      assert tail[1..][1..] == [];
    }
  }

  /**
   * Namespaces are handled in list order: in a run that did not abort, the
   * Gets it makes are one per listed namespace, in list order, whatever
   * spurious failures occurred.
   */
  lemma {:induction false} RunNamespacesGetOrder(
    w: World, failing: set<nat>, user: string, s: Session, nss: seq<string>)
    requires RunNamespaces(w, failing, user, s, nss).outcome == Done
    ensures |w.log| <= |RunNamespaces(w, failing, user, s, nss).world.log|
    ensures GetsIn(RunNamespaces(w, failing, user, s, nss).world.log[|w.log|..]) == GetsFor(user, s.cluster, nss)
    decreases |nss|
  {
    var r := RunNamespaces(w, failing, user, s, nss);
    if nss == [] {
      assert r.world.log[|w.log|..] == [];
    } else {
      var init, ns := nss[..|nss| - 1], nss[|nss| - 1];
      var before := RunNamespaces(w, failing, user, s, init);
      RunNamespacesGetOrder(w, failing, user, s, init);
      StepNamespaceGets(before.world, failing, user, s, ns);
      assert r == StepNamespace(before.world, failing, user, s, ns);
      SuffixSplit(w.log, before.world.log, r.world.log);
      GetsInAppend(before.world.log[|w.log|..], r.world.log[|before.world.log|..]);
    }
  }

  /**
   * A namespace listed twice, without spurious failures: two Gets, and one
   * Create only if the binding was missing; the second Get sees the first
   * Create's insert.
   */
  lemma DuplicateNamespace(w: World, failing: set<nat>, user: string, s: Session, ns: string)
    requires NoFaultsFrom(failing, |w.log|)
    ensures var k := PlannedKey(user, s.cluster, ns);
            var b := DesiredBinding(user, ns);
            RunNamespaces(w, failing, user, s, [ns, ns])
            == if k in w.table then Run(World(w.table, w.log + [GetCall(k), GetCall(k)]), Done)
            else Run(World(w.table[k := b], w.log + [GetCall(k), CreateCall(k, b), GetCall(k)]), Done)
  {
    var k := PlannedKey(user, s.cluster, ns);
    assert [ns, ns][..1] == [ns];
    assert [ns][..0] == [];
    assert RunNamespaces(w, failing, user, s, []) == Run(w, Done);
    var first := RunNamespaces(w, failing, user, s, [ns]);
    assert first == StepNamespace(w, failing, user, s, ns);
    if k in w.table {
      ExistingBindingIsLeftAlone(w, failing, user, s, ns);
    } else {
      MissingBindingIsCreated(w, failing, user, s, ns);
    }
    assert |first.world.log| >= |w.log| && first.outcome == Done && k in first.world.table;
    ExistingBindingIsLeftAlone(first.world, failing, user, s, ns);
  }

  /** The Creates for a key in a log split at any point are those of the two parts. */
  lemma {:induction false} CreatesOfAppend(a: seq<Call>, b: seq<Call>, k: Key)
    ensures CreatesOf(a + b, k) == CreatesOf(a, k) + CreatesOf(b, k)
    decreases |b|
  {
    if b == [] {
      assert a + b == a;
    } else {
      assert (a + b)[..|a + b| - 1] == a + b[..|b| - 1];
      CreatesOfAppend(a, b[..|b| - 1], k);
    }
  }

  /** Without spurious failures, one namespace creates its planned key exactly when it was missing. */
  lemma StepNamespaceCreates(w: World, failing: set<nat>, user: string, s: Session, x: string, k: Key)
    requires NoFaultsFrom(failing, |w.log|)
    ensures var r := StepNamespace(w, failing, user, s, x);
            var kx := PlannedKey(user, s.cluster, x);
            CreatesOf(r.world.log[|w.log|..], k) == if k == kx && kx !in w.table then 1 else 0
  {
    var r := StepNamespace(w, failing, user, s, x);
    var kx := PlannedKey(user, s.cluster, x);
    var tail := r.world.log[|w.log|..];
    if kx in w.table {
      ExistingBindingIsLeftAlone(w, failing, user, s, x);
      assert tail == [GetCall(kx)];
      assert tail[..0] == [];
    } else {
      MissingBindingIsCreated(w, failing, user, s, x);
      assert tail == [GetCall(kx), CreateCall(kx, DesiredBinding(user, x))];
      assert tail[..1] == [GetCall(kx)] && tail[..1][..0] == [];
    }
  }

  /**
   * Without spurious failures, a cluster's namespace loop issues at most one
   * Create for any planned key, however often and wherever its namespace is
   * listed: exactly one when the namespace is listed and its binding was
   * missing, none otherwise. A later Get of the same namespace sees the
   * earlier Create's insert.
   */
  lemma {:induction false} RunNamespacesCreatesAtMostOnce(
    w: World, failing: set<nat>, user: string, s: Session, nss: seq<string>, ns: string)
    requires NoFaultsFrom(failing, |w.log|)
    ensures var r := RunNamespaces(w, failing, user, s, nss);
            var k := PlannedKey(user, s.cluster, ns);
            CreatesOf(r.world.log[|w.log|..], k) == if k !in w.table && ns in nss then 1 else 0
    decreases |nss|
  {
    var r := RunNamespaces(w, failing, user, s, nss);
    var k := PlannedKey(user, s.cluster, ns);
    if nss == [] {
      assert r.world.log[|w.log|..] == [];
    } else {
      var init, x := nss[..|nss| - 1], nss[|nss| - 1];
      var before := RunNamespaces(w, failing, user, s, init);
      RunNamespacesCreatesAtMostOnce(w, failing, user, s, init, ns);
      RunNamespacesWithoutFaultsCompletes(w, failing, user, s, init);
      assert r == StepNamespace(before.world, failing, user, s, x);
      StepNamespaceCreates(before.world, failing, user, s, x, k);
      SuffixSplit(w.log, before.world.log, r.world.log);
      CreatesOfAppend(before.world.log[|w.log|..], r.world.log[|before.world.log|..], k);
      var kx := PlannedKey(user, s.cluster, x);
      assert (ns in nss) == (ns in init || x == ns) by {
        assert nss == init + [x];
      }
      if x == ns {
        RunNamespacesCovers(w, failing, user, s, init);
        if k !in w.table && ns !in init {
          RunNamespacesOnlyInserts(w, failing, user, s, init);
        }
      } else {
        assert k != kx;
      }
    }
  }

  // ---- The clusters of the plan ----

  /** Once the run over clusters `xs` has aborted, the clusters after them are never contacted. */
  lemma {:induction false} RunClustersAbortIsFinal(
    w: World, failing: set<nat>, user: string, plan: Plan, xs: seq<string>, ys: seq<string>)
    requires forall c :: c in xs ==> c in plan
    requires forall c :: c in ys ==> c in plan
    requires RunClusters(w, failing, user, plan, xs).outcome.Aborted?
    ensures RunClusters(w, failing, user, plan, xs + ys) == RunClusters(w, failing, user, plan, xs)
    decreases |ys|
  {
    if ys == [] {
      assert xs + ys == xs;
    } else {
      var zs := xs + ys;
      assert zs[..|zs| - 1] == xs + ys[..|ys| - 1];
      RunClustersAbortIsFinal(w, failing, user, plan, xs, ys[..|ys| - 1]);
    }
  }

  /**
   * A cluster whose session cannot be built aborts the run: no Get or
   * Create reaches it or any later cluster, and the table is unchanged.
   */
  lemma SessionFailureAbortsRun(
    w: World, failing: set<nat>, user: string, plan: Plan, xs: seq<string>, c: string, ys: seq<string>)
    requires forall x :: x in xs ==> x in plan
    requires c in plan
    requires forall y :: y in ys ==> y in plan
    requires RunClusters(w, failing, user, plan, xs).outcome == Done
    requires |RunClusters(w, failing, user, plan, xs).world.log| in failing
    ensures var prev := RunClusters(w, failing, user, plan, xs).world;
            RunClusters(w, failing, user, plan, xs + [c] + ys)
            == Run(World(prev.table, prev.log + [ConnectCall(c)]), Aborted(SessionFailed(c)))
  {
    assert (xs + [c])[..|xs|] == xs;
    RunClustersAbortIsFinal(w, failing, user, plan, xs + [c], ys);
  }

  /**
   * The whole run only reads and inserts: every entry it found is still
   * there unchanged, the log only grows, and every new entry is the desired
   * binding under the planned key of a (cluster, namespace) pair of the plan.
   */
  lemma {:induction false} RunClustersOnlyInserts(
    w: World, failing: set<nat>, user: string, plan: Plan, cls: seq<string>)
    requires forall c :: c in cls ==> c in plan
    ensures var r := RunClusters(w, failing, user, plan, cls);
            && Extends(w.table, r.world.table)
            && w.log <= r.world.log
            && (forall k :: k in r.world.table && k !in w.table ==>
                  && k.cluster in cls
                  && k.cluster in plan
                  && k.namespace in plan[k.cluster]
                  && k == PlannedKey(user, k.cluster, k.namespace)
                  && r.world.table[k] == DesiredBinding(user, k.namespace))
    decreases |cls|
  {
    if cls != [] {
      var init, c := cls[..|cls| - 1], cls[|cls| - 1];
      assert forall x :: x in init ==> x in cls;
      RunClustersOnlyInserts(w, failing, user, plan, init);
      var before := RunClusters(w, failing, user, plan, init);
      if before.outcome == Done {
        var (w1, session) := ConnectSpec(before.world, failing, c);
        if session.Some? {
          RunNamespacesOnlyInserts(w1, failing, user, session.value, plan[c]);
        }
      }
    }
  }

  /** After a run that did not abort, every (cluster, namespace) pair of the plan has its binding. */
  lemma {:induction false} RunClustersCovers(
    w: World, failing: set<nat>, user: string, plan: Plan, cls: seq<string>)
    requires forall c :: c in cls ==> c in plan
    requires RunClusters(w, failing, user, plan, cls).outcome == Done
    ensures Covered(RunClusters(w, failing, user, plan, cls).world.table, user, plan, cls)
    decreases |cls|
  {
    if cls != [] {
      var init, c := cls[..|cls| - 1], cls[|cls| - 1];
      assert forall x :: x in init ==> x in cls;
      var before := RunClusters(w, failing, user, plan, init);
      RunClustersCovers(w, failing, user, plan, init);
      var (w1, session) := ConnectSpec(before.world, failing, c);
      RunNamespacesCovers(w1, failing, user, session.value, plan[c]);
      RunNamespacesOnlyInserts(w1, failing, user, session.value, plan[c]);
      assert cls == init + [c];
    }
  }

  /** Without spurious failures the whole run never aborts. */
  lemma {:induction false} RunClustersWithoutFaultsCompletes(
    w: World, failing: set<nat>, user: string, plan: Plan, cls: seq<string>)
    requires forall c :: c in cls ==> c in plan
    requires NoFaultsFrom(failing, |w.log|)
    ensures RunClusters(w, failing, user, plan, cls).outcome == Done
    decreases |cls|
  {
    if cls != [] {
      var init, c := cls[..|cls| - 1], cls[|cls| - 1];
      assert forall x :: x in init ==> x in cls;
      RunClustersWithoutFaultsCompletes(w, failing, user, plan, init);
      RunClustersOnlyInserts(w, failing, user, plan, init);
      var before := RunClusters(w, failing, user, plan, init);
      var (w1, session) := ConnectSpec(before.world, failing, c);
      RunNamespacesWithoutFaultsCompletes(w1, failing, user, session.value, plan[c]);
    }
  }

  /**
   * Over a table that already covers the plan, the run changes nothing;
   * without spurious failures it completes and makes no Create.
   */
  lemma {:induction false} RunClustersOnCovered(
    w: World, failing: set<nat>, user: string, plan: Plan, cls: seq<string>)
    requires forall c :: c in cls ==> c in plan
    requires Covered(w.table, user, plan, cls)
    ensures RunClusters(w, failing, user, plan, cls).world.table == w.table
    ensures NoFaultsFrom(failing, |w.log|) ==>
              var r := RunClusters(w, failing, user, plan, cls);
              && r.outcome == Done
              && forall i :: |w.log| <= i < |r.world.log| ==> !r.world.log[i].CreateCall?
    decreases |cls|
  {
    if cls != [] {
      var init, c := cls[..|cls| - 1], cls[|cls| - 1];
      assert forall x :: x in init ==> x in cls;
      RunClustersOnCovered(w, failing, user, plan, init);
      RunClustersOnlyInserts(w, failing, user, plan, init);
      var before := RunClusters(w, failing, user, plan, init);
      if before.outcome == Done {
        var (w1, session) := ConnectSpec(before.world, failing, c);
        if session.Some? {
          RunNamespacesOnCovered(w1, failing, user, session.value, plan[c]);
          if NoFaultsFrom(failing, |w.log|) {
            var r := RunClusters(w, failing, user, plan, cls);
            assert r.world.log == before.world.log + [ConnectCall(c)] + GetsFor(user, c, plan[c]);
            forall i | |w.log| <= i < |r.world.log|
              ensures !r.world.log[i].CreateCall?
            {
              if i >= |before.world.log| + 1 {
                assert r.world.log[i] == GetsFor(user, c, plan[c])[i - |before.world.log| - 1];
              }
            }
          }
        }
      }
    }
  }

  /**
   * Running the reconcile loop again over the state a completed run left,
   * with the plan's clusters in any order, changes nothing, whatever fails;
   * without spurious failures it completes and issues no Create.
   */
  lemma ReconcileIsIdempotent(
    w: World, failing1: set<nat>, failing2: set<nat>, user: string, plan: Plan,
    cls1: seq<string>, cls2: seq<string>)
    requires IsIterationOrder(plan, cls1) && IsIterationOrder(plan, cls2)
    requires RunClusters(w, failing1, user, plan, cls1).outcome == Done
    ensures var w1 := RunClusters(w, failing1, user, plan, cls1).world;
            var r2 := RunClusters(w1, failing2, user, plan, cls2);
            && r2.world.table == w1.table
            && (NoFaultsFrom(failing2, |w1.log|) ==>
                  && r2.outcome == Done
                  && forall i :: |w1.log| <= i < |r2.world.log| ==> !r2.world.log[i].CreateCall?)
  {
    var w1 := RunClusters(w, failing1, user, plan, cls1).world;
    RunClustersCovers(w, failing1, user, plan, cls1);
    assert Covered(w1.table, user, plan, cls2);
    RunClustersOnCovered(w1, failing2, user, plan, cls2);
  }
}
