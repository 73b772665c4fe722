/**
 * The role service: the active user's role read from the stored user record,
 * and the permission predicates built on it. `esEstudiante` and
 * `esMantenimiento` compare against each other's role name; the model keeps
 * that as it is.
 */
module RoleService {
  import opened Common
  import opened LocalStorage
  import opened TokenService

  const Administrador := "administrador"
  const Estudiante := "estudiante"
  const Mantenimiento := "mantenimiento"

  /** The role of the stored user, or `None` when no user is stored. */
  function ObtenerRolUsuarioActivo(s: Store, decode: string -> UserInfo): (r: Option<string>)
    ensures r.Some? <==> GetUserInfo(s, decode).Some?
    ensures r.Some? ==> r.value == decode(s[UserKey]).tipoUsuario
  {
    match GetUserInfo(s, decode)
    case Some(u) => Some(u.tipoUsuario)
    case None => None
  }

  /** `esAdministrador`, `esEstudiante`, `esMantenimiento`: a comparison of the stored role with one role name. */
  predicate EsAdministrador(s: Store, decode: string -> UserInfo)
    ensures EsAdministrador(s, decode) <==> StoredRoleIs(s, decode, Administrador)
  {
    ObtenerRolUsuarioActivo(s, decode) == Some(Administrador)
  }

  predicate EsEstudiante(s: Store, decode: string -> UserInfo)
    ensures EsEstudiante(s, decode) <==> StoredRoleIs(s, decode, Mantenimiento)
  {
    ObtenerRolUsuarioActivo(s, decode) == Some(Mantenimiento)
  }

  predicate EsMantenimiento(s: Store, decode: string -> UserInfo)
    ensures EsMantenimiento(s, decode) <==> StoredRoleIs(s, decode, Estudiante)
  {
    ObtenerRolUsuarioActivo(s, decode) == Some(Estudiante)
  }

  /** The four `puede*` checks, each exactly the roles the reference table allows for its action. */
  predicate PuedeAccederConfiguracion(s: Store, decode: string -> UserInfo)
    ensures PuedeAccederConfiguracion(s, decode) <==> exists r :: r in AllowedRoles(Configuracion) && StoredRoleIs(s, decode, r)
  {
    StoredRoleWitness(s, decode);
    var rol := ObtenerRolUsuarioActivo(s, decode);
    rol == Some(Administrador)
  }

  predicate PuedeControlarRiego(s: Store, decode: string -> UserInfo)
    ensures PuedeControlarRiego(s, decode) <==> exists r :: r in AllowedRoles(Riego) && StoredRoleIs(s, decode, r)
  {
    StoredRoleWitness(s, decode);
    var rol := ObtenerRolUsuarioActivo(s, decode);
    rol == Some(Administrador) || rol == Some(Mantenimiento)
  }

  predicate PuedeCrearPerfilesActivos(s: Store, decode: string -> UserInfo)
    ensures PuedeCrearPerfilesActivos(s, decode) <==> exists r :: r in AllowedRoles(CrearPerfiles) && StoredRoleIs(s, decode, r)
  {
    StoredRoleWitness(s, decode);
    var rol := ObtenerRolUsuarioActivo(s, decode);
    rol == Some(Administrador) || rol == Some(Mantenimiento)
  }

  predicate PuedeAccederReportes(s: Store, decode: string -> UserInfo)
    ensures PuedeAccederReportes(s, decode) <==> exists r :: r in AllowedRoles(Reportes) && StoredRoleIs(s, decode, r)
  {
    StoredRoleWitness(s, decode);
    var rol := ObtenerRolUsuarioActivo(s, decode);
    rol == Some(Administrador) || rol == Some(Mantenimiento)
  }

  /** The gated actions, and a single reference table of the roles allowed each. */
  datatype Action = Configuracion | Riego | CrearPerfiles | Reportes

  function AllowedRoles(a: Action): set<string> {
    match a
    case Configuracion => {Administrador}
    case Riego => {Administrador, Mantenimiento}
    case CrearPerfiles => {Administrador, Mantenimiento}
    case Reportes => {Administrador, Mantenimiento}
  }

  /** The stored user's role, when its serialised record is present and non-empty. */
  ghost predicate StoredRoleIs(s: Store, decode: string -> UserInfo, role: string) {
    UserKey in s && s[UserKey] != "" && decode(s[UserKey]).tipoUsuario == role
  }

  /** A stored, non-empty user record has a role. */
  lemma StoredRoleWitness(s: Store, decode: string -> UserInfo)
    ensures UserKey in s && s[UserKey] != "" ==> StoredRoleIs(s, decode, decode(s[UserKey]).tipoUsuario)
  {
  }

  /** Each `puede*` predicate holds exactly when the stored role is one the reference table allows. */
  lemma PermissionsFollowTable(s: Store, decode: string -> UserInfo)
    ensures PuedeAccederConfiguracion(s, decode) <==> exists r :: r in AllowedRoles(Configuracion) && StoredRoleIs(s, decode, r)
    ensures PuedeControlarRiego(s, decode) <==> exists r :: r in AllowedRoles(Riego) && StoredRoleIs(s, decode, r)
    ensures PuedeCrearPerfilesActivos(s, decode) <==> exists r :: r in AllowedRoles(CrearPerfiles) && StoredRoleIs(s, decode, r)
    ensures PuedeAccederReportes(s, decode) <==> exists r :: r in AllowedRoles(Reportes) && StoredRoleIs(s, decode, r)
  {
    if UserKey in s && s[UserKey] != "" {
      var r := decode(s[UserKey]).tipoUsuario;
      assert StoredRoleIs(s, decode, r);
    }
  }

  /** The identity predicates read the stored role; the student and maintenance ones are crossed over. */
  lemma IdentityPredicates(s: Store, decode: string -> UserInfo)
    ensures EsAdministrador(s, decode) <==> StoredRoleIs(s, decode, Administrador)
    ensures EsEstudiante(s, decode) <==> StoredRoleIs(s, decode, Mantenimiento)
    ensures EsMantenimiento(s, decode) <==> StoredRoleIs(s, decode, Estudiante)
  {
  }

  /** The three operational permissions agree for every stored user. */
  lemma OperationalPermissionsAgree(s: Store, decode: string -> UserInfo)
    ensures PuedeControlarRiego(s, decode) == PuedeCrearPerfilesActivos(s, decode) == PuedeAccederReportes(s, decode)
    ensures PuedeAccederConfiguracion(s, decode) ==> PuedeControlarRiego(s, decode)
  {
  }

  /** Without a stored user there is no role and every predicate is false. */
  lemma NoUserNoPermissions(s: Store, decode: string -> UserInfo)
    requires UserKey !in s
    ensures ObtenerRolUsuarioActivo(s, decode) == None
    ensures !EsAdministrador(s, decode) && !EsEstudiante(s, decode) && !EsMantenimiento(s, decode)
    ensures !PuedeAccederConfiguracion(s, decode) && !PuedeControlarRiego(s, decode)
    ensures !PuedeCrearPerfilesActivos(s, decode) && !PuedeAccederReportes(s, decode)
  {
  }

  /** A stored student is denied every gated action, and `esEstudiante` is false for them. */
  lemma StudentDenied(s: Store, decode: string -> UserInfo)
    requires StoredRoleIs(s, decode, Estudiante)
    ensures !PuedeAccederConfiguracion(s, decode) && !PuedeControlarRiego(s, decode)
    ensures !PuedeCrearPerfilesActivos(s, decode) && !PuedeAccederReportes(s, decode)
    ensures !EsEstudiante(s, decode) && EsMantenimiento(s, decode)
  {
  }
}
