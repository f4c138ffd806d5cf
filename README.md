# rights_namespaces: granting a user `admin` in listed namespaces

The `rights_namespaces` program gives one user the built-in `admin`
ClusterRole in each listed namespace of each listed Kubernetes cluster. For
every cluster context of its plan it builds a client, and for every namespace
of that cluster, in list order, it looks up the RoleBinding
`<user>-<namespace>`. If the lookup succeeds it moves on; if it fails, for
whatever reason, it creates that RoleBinding (one `User` subject, role
reference `rbac.authorization.k8s.io`/`ClusterRole`/`admin`). A client that
cannot be built, or a Create that fails, stops the whole program.

This project models that reconcile loop and proves what it guarantees.

- `wrappers.dfy` (`Wrappers`): `Option` and `Result`.
- `role_binding.dfy` (`RoleBindings`): the RoleBinding record, the name
  derivation `BindingName`, its inverse `NamespaceOf`, and `DesiredBinding`,
  the record the loop creates.
- `reconcile_spec.dfy` (`ReconcileSpec`): the state of all clusters as one
  table keyed by (kubeconfig context, namespace, binding name), a log of each
  client construction, Get and Create the loop issues, the three primitives
  (Connect, Get, Create) and the loop itself (`StepNamespace`, `RunNamespaces`, `StepCluster`,
  `RunClusters`) as functions of that state.
- `fleet.dfy` (`Reconciler`): class `Fleet`, which holds the table and the
  log and whose methods are the primitives and the two nested loops; each
  method's new state is the specification function applied to its old state.
- `properties.dfy` (`ReconcileProperties`): the lemmas.
- `scenarios.dfy` (`Scenarios`): the program's built-in user and plan, and
  client methods that run `Fleet` on small plans.

Failures the model cannot see (a bad kubeconfig context, an unreachable API
server, bad credentials, a transient error) are an input: `failing` is the
set of log positions at which the client construction, Get or Create issued
there answers with an error whatever the table holds. The cluster order is also an input: the
program ranges over a Go map, whose order is unspecified, so `Reconcile`
takes any sequence that lists each cluster of the plan once.

Two points about the code that the model keeps as they are:

- The code never aborts on a Get error: any Get error, not only "not
  found", leads to a Create attempt. `TransientGetErrorOnExistingBindingAborts`
  shows what follows when the binding exists: the Create fails with
  "already exists" and the run aborts.
- The user is a constant (`test_wtp`) in the code; the model takes any
  user, the empty one included.

## Model

| member | source | states |
|---|---|---|
| RoleBindings.BindingName | rights_namespaces/main.go:64 | the binding name is the user, then `-`, then the namespace, and nothing else |
| RoleBindings.NamespaceOfBindingName | rights_namespaces/main.go:64-66 | the binding name for `ns` is `user`, a `-`, then `ns`: parsing it back yields `ns` |
| RoleBindings.BindingNameOfNamespace | rights_namespaces/main.go:64 | every name that parses as made for `user` is the binding name of the namespace it yields |
| RoleBindings.BindingNameInjective | rights_namespaces/main.go:64-66 | for one user, distinct namespaces get distinct binding names: the name alone tells which namespace it was made for |
| RoleBindings.DesiredBinding | rights_namespaces/main.go:77-93 | the created binding is named `user-ns`, has exactly one subject (User `user` of namespace `ns`), and refers to ClusterRole `admin` of group `rbac.authorization.k8s.io` |
| ReconcileSpec.ConnectSpec | rights_namespaces/main.go:47-56 | building a context's client logs one step and changes no binding; it yields a session for that context exactly when the step does not fail |
| ReconcileSpec.GetSpec | rights_namespaces/main.go:68 | a Get logs one call and changes no binding; it succeeds, with the stored binding, exactly when the key is present and the call does not fail; it reports NotFound exactly when the call does not fail and the key is absent |
| ReconcileSpec.CreateSpec | rights_namespaces/main.go:95 | a Create logs one call; it succeeds exactly when the key is free and the call does not fail, and only then inserts the binding; an existing binding is never overwritten |
| ReconcileSpec.StepNamespace | rights_namespaces/main.go:64-99 | one namespace keeps every entry, may add only the desired binding under its planned key, leaves that key present unless it aborts, and aborts only with a Create failure for that key |
| ReconcileSpec.RunNamespaces | rights_namespaces/main.go:62-101 | a cluster's namespace loop keeps every entry, only appends to the log, does nothing for an empty list, and aborts only on a failed Create |
| ReconcileSpec.StepCluster | rights_namespaces/main.go:47-101 | one cluster builds its client before any Get or Create, keeps every entry, and aborts with a session failure exactly when the client cannot be built, in which case nothing else happens |
| ReconcileSpec.RunClusters | rights_namespaces/main.go:44-103 | the whole loop keeps every entry, only appends to the log, and for an empty plan does nothing and succeeds |
| Reconciler.Fleet.Connect | rights_namespaces/main.go:47-56 | building the client appends one Connect call; it yields a session for that cluster unless the call fails; the table is unchanged |
| Reconciler.Fleet.Get | rights_namespaces/main.go:68 | a Get appends one call, never changes the table, and returns the stored binding, NotFound, or a spurious error |
| Reconciler.Fleet.Create | rights_namespaces/main.go:95 | a Create appends one call and inserts the binding under (cluster, ns, name) only when that key is free and the call does not fail; it never overwrites |
| Reconciler.Fleet.ReconcileNamespaces | rights_namespaces/main.go:60-101 | the inner loop leaves exactly the state and outcome of `RunNamespaces`: namespaces in list order, stopping at the first failed Create |
| Reconciler.Fleet.Reconcile | rights_namespaces/main.go:43-103 | the outer loop, for any iteration order of the plan's clusters, leaves exactly the state and outcome of `RunClusters` |
| ReconcileProperties.ExistingBindingIsLeftAlone | rights_namespaces/main.go:68-73 | when the Get succeeds, only that Get is issued: no Create, and the entry stays as it was, whatever it holds |
| ReconcileProperties.MissingBindingIsCreated | rights_namespaces/main.go:68-99 | when the Get fails for any reason, exactly one Create of the desired binding follows; it succeeds if and only if the key is free and the call does not fail; only then is the table changed, otherwise the run aborts with the Create's error |
| ReconcileProperties.TransientGetErrorOnExistingBindingAborts | rights_namespaces/main.go:68-99 | a Get error on a binding that exists is not told apart from "not found": the Create that follows fails as "already exists" and the run aborts |
| ReconcileProperties.StepNamespaceCreates | rights_namespaces/main.go:68-99 | without spurious failures, one namespace issues a Create for its planned key exactly when that key was missing, and none for any other key |
| ReconcileProperties.StepNamespaceGets | rights_namespaces/main.go:68 | one namespace issues exactly one Get, for its planned key |
| ReconcileProperties.RunNamespacesAbortIsFinal | rights_namespaces/main.go:95-99 | once a failed Create has aborted the run, later namespaces issue no call and change nothing |
| ReconcileProperties.CreateFailureAbortsRun | rights_namespaces/main.go:95-99 | a failed Create ends the run with that key's Get and Create as the last calls, nothing created for it, and no later namespace looked at |
| ReconcileProperties.RunNamespacesOnlyInserts | rights_namespaces/main.go:62-101 | a cluster's namespace loop never updates or deletes: old entries are kept, the log only grows, and every new entry is the desired binding of a listed namespace |
| ReconcileProperties.RunNamespacesCovers | rights_namespaces/main.go:62-101 | after a cluster's namespaces complete, every listed namespace holds a binding under its planned name |
| ReconcileProperties.RunNamespacesOnCovered | rights_namespaces/main.go:62-101 | when every planned binding exists, the namespace loop changes nothing; without failures it issues exactly one Get per listed namespace, in list order, and no Create |
| ReconcileProperties.RunNamespacesWithoutFaultsCompletes | rights_namespaces/main.go:62-101 | without spurious failures the namespace loop never aborts, even when a namespace is listed twice |
| ReconcileProperties.RunNamespacesGetOrder | rights_namespaces/main.go:60-73 | in a run that completes, the Gets issued are one per listed namespace, in list order, whatever failed along the way |
| ReconcileProperties.DuplicateNamespace | rights_namespaces/main.go:60-73 | the list `[ns, ns]` without failures gives exactly two Gets and at most one Create, because the second Get sees the first Create's insert |
| ReconcileProperties.RunNamespacesCreatesAtMostOnce | rights_namespaces/main.go:60-99 | without spurious failures, for any list, however often and wherever a namespace is listed, the loop issues at most one Create for its planned key: exactly one when the namespace is listed and its binding was missing, none otherwise |
| ReconcileProperties.RunClustersAbortIsFinal | rights_namespaces/main.go:44-56 | once the run has aborted, later clusters are never contacted and nothing changes |
| ReconcileProperties.SessionFailureAbortsRun | rights_namespaces/main.go:47-56 | a cluster whose client cannot be built ends the run after that one attempt: no Get or Create in it or any later cluster, table unchanged |
| ReconcileProperties.RunClustersOnlyInserts | rights_namespaces/main.go:44-103 | the whole run never updates or deletes: old entries are kept, and every new entry is the desired binding for a (cluster, namespace) pair of the plan |
| ReconcileProperties.RunClustersCovers | rights_namespaces/main.go:44-103 | after a run that does not abort, every (cluster, namespace) pair of the plan holds a binding under `user-ns` |
| ReconcileProperties.RunClustersWithoutFaultsCompletes | rights_namespaces/main.go:44-103 | without spurious failures the whole run completes |
| ReconcileProperties.RunClustersOnCovered | rights_namespaces/main.go:44-103 | over a state that already covers the plan, the run changes nothing; without failures it completes and issues no Create |
| ReconcileProperties.ReconcileIsIdempotent | rights_namespaces/main.go:44-103 | a second run over the state a completed run left, visiting the clusters in any order, changes no binding, whatever fails; without failures it completes with zero Creates |
| Scenarios.BuiltInConfigurationRun | rights_namespaces/main.go:21-33 | with the built-in user `test_wtp` and plan `ed-ks1: [wgie-wtp-dataplatform]`, on empty clusters, the run issues Connect, Get, and one Create of `test_wtp-wgie-wtp-dataplatform` |

## Left out

- Flag parsing, the default kubeconfig path and the home-directory lookup (rights_namespaces/main.go:35-40, 107-112): process plumbing, outside the loop.
- `buildConfigFromFlags` and `kubernetes.NewForConfig` (rights_namespaces/main.go:47-56, 114-120): foreign client-go calls. The model merges them into one `Connect` that either yields a session or fails. The kubeconfig path is not modelled.
- The RBAC REST calls and their wire types: replaced by `Get` and `Create` on the in-memory table. Only the fields the program sets are modelled (name, subjects, role reference). The error text is not modelled.
- Logging (rights_namespaces/main.go:46, 58, 71, 75): it has no effect on state.
- The reflective iteration over `interface{}` namespace lists (rights_namespaces/main.go:18, 60-66): the plan maps each cluster to a `seq<string>`.
- The Go map's iteration order over clusters (rights_namespaces/main.go:44): `Reconcile` takes the order as an input, and the properties hold for every order.
- `panic` as a mechanism: a panic becomes an `Aborted` outcome, with the state as it was at the abort.
- For a Create at a failing position whose key is also taken, the model reports `Rejected`, not `AlreadyExists`. Both abort the run in the same way.
- Timeouts and hangs: the model assumes every call returns.
- Bindings are keyed by kubeconfig context name (rights_namespaces/main.go:44, 47). Two contexts that point to the same cluster share their bindings in reality but are separate in the model.
- Other writers: the model assumes nothing else changes the clusters during a run, for example between a Get and its Create. `Extends`, `Covered` and the properties built on them rest on this.
