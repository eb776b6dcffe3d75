/** Accounts and the role checks that guard every endpoint. */
module Users {

  /** An account; `role` is the stored string, which the database does not
      restrict to the four known roles. */
  datatype User = User(id: nat, username: string, role: string)

  /** The requester: `request.user` is either anonymous or an account. */
  datatype Actor = Anonymous | Authenticated(user: User)

  const Admin: string := "ADMIN"
  const Gestor: string := "GESTOR"
  const Analista: string := "ANALISTA"
  const Visualizador: string := "VISUALIZADOR"

  predicate KnownRole(role: string) {
    role in {Admin, Gestor, Analista, Visualizador}
  }

  /** The roles each permission class lets through, from most to least
      restrictive. */
  datatype Permission = IsAdmin | IsGestor | IsAnalyst | IsViewer | IsAuthenticated

  function AllowedRoles(p: Permission): (roles: set<string>)
    requires p != IsAuthenticated
    ensures roles <= {Admin, Gestor, Analista, Visualizador}
    ensures Admin in roles
  {
    match p
    case IsAdmin => {Admin}
    case IsGestor => {Admin, Gestor}
    case IsAnalyst => {Admin, Gestor, Analista}
    case IsViewer => {Admin, Gestor, Analista, Visualizador}
  }

  /** `has_permission`: authenticated, and (except for the plain
      authentication check) holding one of the allowed roles. */
  predicate HasPermission(p: Permission, a: Actor) {
    a.Authenticated? && (p == IsAuthenticated || a.user.role in AllowedRoles(p))
  }

  /** Rank of a permission in the chain; a higher rank admits fewer roles. */
  function Rank(p: Permission): (n: nat)
    ensures n <= 4
  {
    match p
    case IsAuthenticated => 0
    case IsViewer => 1
    case IsAnalyst => 2
    case IsGestor => 3
    case IsAdmin => 4
  }

  /** The checks form a chain: passing a stricter check passes every looser one. */
  lemma PermissionChain(p: Permission, q: Permission, a: Actor)
    requires Rank(q) <= Rank(p) && HasPermission(p, a)
    ensures HasPermission(q, a)
  {
  }

  /** No check admits an anonymous requester. */
  lemma AnonymousDenied(p: Permission)
    ensures !HasPermission(p, Anonymous)
  {
  }

  /** A role outside the four known ones passes only the plain
      authentication check. */
  lemma UnknownRoleDenied(p: Permission, u: User)
    requires !KnownRole(u.role) && p != IsAuthenticated
    ensures !HasPermission(p, Authenticated(u))
  {
  }

  /** Each known role passes exactly the checks at or below its own level. */
  lemma RoleLevels(u: User)
    ensures HasPermission(IsAdmin, Authenticated(u)) <==> u.role == Admin
    ensures HasPermission(IsGestor, Authenticated(u)) <==> u.role == Admin || u.role == Gestor
    ensures HasPermission(IsAnalyst, Authenticated(u))
            <==> u.role == Admin || u.role == Gestor || u.role == Analista
    ensures HasPermission(IsViewer, Authenticated(u)) <==> KnownRole(u.role)
  {
  }
}
