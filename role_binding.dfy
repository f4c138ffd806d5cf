/**
 * The RoleBinding record that the reconcile loop builds, the name it gives
 * it, and what it means for such a record to grant a user the built-in
 * `admin` ClusterRole in a namespace.
 */
module RoleBindings {
  import opened Wrappers

  const RbacApiGroup: string := "rbac.authorization.k8s.io"
  const UserKind: string := "User"
  const ClusterRoleKind: string := "ClusterRole"
  const AdminRole: string := "admin"

  datatype Subject = Subject(kind: string, name: string, namespace: string)

  datatype RoleRef = RoleRef(apiGroup: string, kind: string, name: string)

  /** The fields of an RBAC RoleBinding that the loop sets; the namespace is part of the key. */
  datatype RoleBinding = RoleBinding(name: string, subjects: seq<Subject>, roleRef: RoleRef)

  /** The name the loop gives the binding for `user` in namespace `ns`: "<user>-<ns>". */
  function BindingName(user: string, ns: string): (r: string)
    ensures |r| == |user| + 1 + |ns|
    ensures r[..|user|] == user && r[|user|] == '-' && r[|user| + 1..] == ns
  {
    user + "-" + ns
  }

  /** Recovers the namespace from a binding name made for `user`, if it is one. */
  function NamespaceOf(user: string, name: string): (r: Option<string>)
    ensures r.Some? ==> |r.value| == |name| - |user| - 1
  {
    if |name| > |user| && name[..|user|] == user && name[|user|] == '-'
    then Some(name[|user| + 1..])
    else None
  }

  /** `b` makes `user`, as a User subject of namespace `ns`, an admin through the built-in ClusterRole. */
  ghost predicate GrantsAdmin(b: RoleBinding, user: string, ns: string)
  {
    && b.roleRef.apiGroup == RbacApiGroup
    && b.roleRef.kind == ClusterRoleKind
    && b.roleRef.name == AdminRole
    && Subject(UserKind, user, ns) in b.subjects
  }

  /** The RoleBinding the loop creates for `user` in namespace `ns`. */
  function DesiredBinding(user: string, ns: string): (b: RoleBinding)
    ensures b.name == BindingName(user, ns)
    ensures GrantsAdmin(b, user, ns)
    ensures |b.subjects| == 1
  {
    RoleBinding(
      BindingName(user, ns),
      [Subject(UserKind, user, ns)],
      RoleRef(RbacApiGroup, ClusterRoleKind, AdminRole))
  }

  /** Parsing a binding name recovers the namespace it was made for. */
  lemma NamespaceOfBindingName(user: string, ns: string)
    ensures NamespaceOf(user, BindingName(user, ns)) == Some(ns)
  {
    var name := BindingName(user, ns);
    assert name[..|user|] == user;
    assert name[|user| + 1..] == ns;
  }

  /** Every name that parses as made for `user` is the binding name of the namespace it yields. */
  lemma BindingNameOfNamespace(user: string, name: string)
    requires NamespaceOf(user, name).Some?
    ensures BindingName(user, NamespaceOf(user, name).value) == name
  {
    var ns := NamespaceOf(user, name).value;
    assert name == name[..|user|] + [name[|user|]] + name[|user| + 1..];
  }

  /** For one user, distinct namespaces get distinct binding names. */
  lemma BindingNameInjective(user: string, ns1: string, ns2: string)
    requires BindingName(user, ns1) == BindingName(user, ns2)
    ensures ns1 == ns2
  {
    NamespaceOfBindingName(user, ns1);
    NamespaceOfBindingName(user, ns2);
  }
}
