/** Resolving a user's permissions: role and grants less denials, cached for five minutes. */
module Permissions {
  import opened Optional
  import opened ExpiringKeys

  type Permission = string

  datatype User = User(id: string, role: string, customRoleId: Option<string>, grant: seq<Permission>, deny: seq<Permission>)

  /** What the role collection answers: the role's permissions, no such role, or an error; getting
      at the collection can fail too, whatever the role. */
  datatype RoleReply = Found(permissions: seq<Permission>) | Missing | Failing

  function SystemRole(role: string): Option<seq<Permission>> {
    if role == "owner" then Some(["*"])
    else if role == "admin" then Some([
      "users:read", "users:write", "users:delete", "roles:manage", "billing:read", "reports:export",
      "files:upload", "apikeys:manage", "settings:read", "settings:write", "notifications:read",
      "audit:read", "search:query", "export:create", "quota:read", "webhooks:manage", "plugins:manage"])
    else if role == "member" then Some([
      "users:read", "reports:export", "files:upload", "settings:read", "notifications:read",
      "search:query", "export:create", "quota:read"])
    else if role == "viewer" then Some([
      "users:read", "settings:read", "notifications:read", "search:query", "quota:read"])
    else None
  }

  /** The role's permissions; None when loading them throws. */
  function RolePermissions(user: User, reply: RoleReply): Option<seq<Permission>> {
    if reply.Failing? then None
    else if SystemRole(user.role).Some? then SystemRole(user.role)
    else if user.customRoleId.None? then Some([])
    else match reply
         case Found(ps) => Some(ps)
         case _ => Some([])
  }

  function Elements(s: seq<Permission>): set<Permission> { set p | p in s }

  /** What a user may do: role and grant less deny; nothing at all when the role cannot be loaded. */
  function Effective(user: User, reply: RoleReply): set<Permission> {
    match RolePermissions(user, reply)
    case None => {}
    case Some(ps) => Elements(ps) + Elements(user.grant) - Elements(user.deny)
  }

  predicate Distinct(s: seq<Permission>) {
    forall i, j | 0 <= i < j < |s| :: s[i] != s[j]
  }

  /** Deleting from a JavaScript Set: the rest keeps its order. */
  function Deleted(s: seq<Permission>, p: Permission): (r: seq<Permission>)
    ensures Elements(r) == Elements(s) - {p}
    ensures Distinct(s) ==> Distinct(r)
    ensures forall x :: x in r ==> x in s
  {
    if s == [] then []
    else if s[0] == p then Deleted(s[1..], p)
    else
      var rest := Deleted(s[1..], p);
      assert Elements(s) == {s[0]} + Elements(s[1..]) && Elements([s[0]] + rest) == {s[0]} + Elements(rest);
      [s[0]] + rest
  }

  method UniqueOf(s: seq<Permission>) returns (r: seq<Permission>)
    ensures Distinct(r) && Elements(r) == Elements(s)
  {
    r := [];
    for i := 0 to |s|
      invariant Distinct(r) && forall p :: p in r <==> p in s[..i]
    {
      if s[i] !in r {
        r := r + [s[i]];
      }
    }
  }

  /** `_fetchPermissionsFromDB`: exactly the effective permissions, each once. */
  method Fetch(user: User, reply: RoleReply) returns (r: seq<Permission>)
    ensures Distinct(r) && Elements(r) == Effective(user, reply)
    ensures reply.Failing? ==> r == []
  {
    var rolePermissions := RolePermissions(user, reply);
    if rolePermissions.None? {
      return [];
    }
    var all := rolePermissions.value + user.grant;
    var granted := UniqueOf(all);
    assert Elements(all) == Elements(rolePermissions.value) + Elements(user.grant);
    for i := 0 to |user.deny|
      invariant Distinct(granted)
      invariant Elements(granted) == Elements(all) - Elements(user.deny[..i])
    {
      assert Elements(user.deny[..i + 1]) == Elements(user.deny[..i]) + {user.deny[i]};
      granted := Deleted(granted, user.deny[i]);
    }
    assert user.deny[..|user.deny|] == user.deny;
    r := granted;
  }

  function BeforeColon(p: Permission): Permission {
    if p == "" || p[0] == ':' then "" else [p[0]] + BeforeColon(p[1..])
  }

  function Wildcard(p: Permission): Permission { BeforeColon(p) + ":*" }

  predicate HasPermission(permissions: seq<Permission>, required: Permission) {
    required == "" || "*" in permissions || required in permissions || Wildcard(required) in permissions
  }

  /** In the role or granted directly, and not denied. */
  predicate Left(user: User, reply: RoleReply, p: Permission) {
    RolePermissions(user, reply).Some? && (p in RolePermissions(user, reply).value || p in user.grant) && p !in user.deny
  }

  lemma {:induction false} ColonFree(r: string, a: string)
    requires ':' !in r
    ensures BeforeColon(r) == r && BeforeColon(r + ":" + a) == r
  {
    if r != "" {
      assert (r + ":" + a)[1..] == r[1..] + ":" + a;
      ColonFree(r[1..], a);
    }
  }

  /** Every permission of a resource, and the bare resource, has the resource's wildcard. */
  lemma {:induction false} WildcardOf(r: string, a: string)
    requires ':' !in r
    ensures Wildcard(r) == r + ":*" && Wildcard(r + ":" + a) == r + ":*"
  {
    ColonFree(r, a);
  }

  lemma {:induction false} SplitAtColon(p: Permission) returns (r: string)
    ensures ':' !in r && (p == r || r + ":" <= p)
  {
    if p == "" || p[0] == ':' {
      r := "";
    } else {
      var rest := SplitAtColon(p[1..]);
      r := [p[0]] + rest;
      assert p == [p[0]] + p[1..];
      assert r + ":" == [p[0]] + (rest + ":");
    }
  }

  /** `w` grants `p`: as the permission itself, as the wildcard of its resource, or as "*". */
  ghost predicate Covers(w: Permission, p: Permission) {
    w == "*" || w == p || exists r :: ':' !in r && w == r + ":*" && (p == r || r + ":" <= p)
  }

  lemma {:induction false} CoversIff(w: Permission, p: Permission)
    ensures Covers(w, p) <==> w == "*" || w == p || w == Wildcard(p)
  {
    var r := SplitAtColon(p);
    WildcardOf(r, if p == r then "" else p[|r| + 1..]);
    assert p != r ==> p == r + ":" + p[|r| + 1..];
    if w == Wildcard(p) {
      assert w == r + ":*";
    }
    forall q | ':' !in q && w == q + ":*" && (p == q || q + ":" <= p) ensures w == Wildcard(p) {
      WildcardOf(q, if p == q then "" else p[|q| + 1..]);
      assert p != q ==> p == q + ":" + p[|q| + 1..];
    }
  }

  lemma {:induction false} ResolvedAreLeft(user: User, reply: RoleReply, permissions: seq<Permission>)
    requires Elements(permissions) == Effective(user, reply)
    ensures forall x :: x in permissions <==> Left(user, reply, x)
  {
    forall x ensures x in permissions <==> Left(user, reply, x) {
      assert x in permissions <==> x in Elements(permissions);
    }
  }

  /** A user has a permission if and only if some permission that covers it is in the role or granted
      directly, and not denied. */
  lemma {:induction false} HasPermissionIff(user: User, reply: RoleReply, permissions: seq<Permission>, p: Permission)
    requires p != "" && Elements(permissions) == Effective(user, reply)
    ensures HasPermission(permissions, p) <==> exists w :: Left(user, reply, w) && Covers(w, p)
  {
    ResolvedAreLeft(user, reply, permissions);
    CoversIff("*", p);
    CoversIff(p, p);
    CoversIff(Wildcard(p), p);
    forall w | Left(user, reply, w) && Covers(w, p) ensures HasPermission(permissions, p) {
      CoversIff(w, p);
    }
  }

  /** Denying any permission, a wildcard included, takes it away if and only if no wildcard that
      covers it is left; such a wildcard is not the denied one itself. */
  lemma {:induction false} DeniedIff(user: User, reply: RoleReply, permissions: seq<Permission>, p: Permission)
    requires p in user.deny && Elements(permissions) == Effective(user, reply)
    ensures HasPermission(permissions, p) <==> p == "" || Left(user, reply, "*") || Left(user, reply, Wildcard(p))
  {
    ResolvedAreLeft(user, reply, permissions);
  }

  /** An owner who is denied nothing has every permission; each other system role has all that the
      role below it has, and never one that only the owner's "*" gives; the role document plays no part. */
  lemma {:induction false} SystemRoles(user: User, reply: RoleReply, p: Permission)
    requires !reply.Failing? && user.deny == [] && user.grant == []
    ensures user.role == "owner" ==> exists w :: Left(user, reply, w) && Covers(w, p)
    ensures var viewer, member, admin := user.(role := "viewer"), user.(role := "member"), user.(role := "admin");
            && (Left(viewer, reply, p) ==> Left(member, reply, p)) && (Left(member, reply, p) ==> Left(admin, reply, p))
            && !Left(admin, reply, "*")
    ensures SystemRole(user.role).Some? ==> (Left(user, reply, p) <==> Left(user, Missing, p))
  {
    if user.role == "owner" {
      assert Left(user, reply, "*") && Covers("*", p);
    }
  }

  /** A role that is none of the four is the role document's permissions, or none. */
  lemma {:induction false} CustomRoles(user: User, reply: RoleReply, p: Permission)
    requires user.role !in {"owner", "admin", "member", "viewer"}
    ensures Left(user, reply, p) <==>
              && reply != Failing && p !in user.deny
              && (p in user.grant || (user.customRoleId.Some? && reply.Found? && p in reply.permissions))
  {
  }
}
