/**
 * The settings modal: the user list and its updates, and the mappings from a
 * role or an active flag to the texts and CSS classes the table shows.
 */
module ConfiguracionModal {
  import opened Common
  import opened Usuarios

  const Tipos := ["administrador", "estudiante", "mantenimiento"]

  /** `Array.prototype.indexOf`: the first index holding `x`, or -1. */
  function IndexOf(xs: seq<string>, x: string): (r: int)
    ensures -1 <= r < |xs|
    ensures r == -1 <==> x !in xs
    ensures r >= 0 ==> xs[r] == x && forall j :: 0 <= j < r ==> xs[j] != x
  {
    if |xs| == 0 then -1
    else if xs[0] == x then 0
    else
      var i := IndexOf(xs[1..], x);
      if i == -1 then -1 else i + 1
  }

  /** `getNextUserType`: the role after `current` in the cycle; an unknown role restarts it. */
  function GetNextUserType(current: string): (r: string)
    ensures r in Tipos
  {
    var nextIndex := (IndexOf(Tipos, current) + 1) % |Tipos|;
    Tipos[nextIndex]
  }

  /** The cycle administrador → estudiante → mantenimiento → administrador. */
  lemma NextUserTypeCycle()
    ensures GetNextUserType("administrador") == "estudiante"
    ensures GetNextUserType("estudiante") == "mantenimiento"
    ensures GetNextUserType("mantenimiento") == "administrador"
  {
    assert IndexOf(Tipos, "administrador") == 0;
    assert IndexOf(Tipos, "estudiante") == 1;
    assert IndexOf(Tipos, "mantenimiento") == 2;
  }

  /** Three steps bring every known role back to itself. */
  lemma NextUserTypeThrice(t: string)
    requires t in Tipos
    ensures GetNextUserType(GetNextUserType(GetNextUserType(t))) == t
  {
    NextUserTypeCycle();
  }

  /** An unknown role is followed by 'administrador', because `indexOf` gives -1. */
  lemma NextOfUnknown(t: string)
    requires t !in Tipos
    ensures GetNextUserType(t) == "administrador"
  {
  }

  /** `getTipoUsuarioDisplay`: the capitalised name of a known role, anything else unchanged. */
  function GetTipoUsuarioDisplay(tipo: string): (r: string)
    ensures tipo !in Tipos ==> r == tipo
  {
    match tipo
    case "administrador" => "Administrador"
    case "estudiante" => "Estudiante"
    case "mantenimiento" => "Mantenimiento"
    case _ => tipo
  }

  /** `getTipoUsuarioClass`: a CSS class for a known role, '' otherwise. */
  function GetTipoUsuarioClass(tipo: string): (r: string)
    ensures tipo !in Tipos ==> r == ""
  {
    match tipo
    case "administrador" => "tipo-admin"
    case "estudiante" => "tipo-estudiante"
    case "mantenimiento" => "tipo-mantenimiento"
    case _ => ""
  }

  /** A role is known exactly when it has a class, and exactly when its display name differs from it. */
  lemma KnownRoleIff(tipo: string)
    ensures GetTipoUsuarioClass(tipo) != "" <==> tipo in Tipos
    ensures GetTipoUsuarioDisplay(tipo) != tipo <==> tipo in Tipos
  {
  }

  /** `getUserTypeOptions`. */
  function GetUserTypeOptions(): (r: seq<(string, string)>)
    ensures |r| == |Tipos|
    ensures forall i :: 0 <= i < |r| ==> r[i].0 == Tipos[i]
  {
    [("administrador", "Administrador"), ("estudiante", "Estudiante"), ("mantenimiento", "Mantenimiento")]
  }

  /** Each option's label is what the table shows for its value, and the cycle visits the options in order. */
  lemma OptionsAgreeWithDisplay()
    ensures forall i :: 0 <= i < |GetUserTypeOptions()| ==>
      GetUserTypeOptions()[i].1 == GetTipoUsuarioDisplay(GetUserTypeOptions()[i].0)
    ensures forall i :: 0 <= i < |Tipos| ==> GetNextUserType(Tipos[i]) == Tipos[(i + 1) % 3]
  {
    NextUserTypeCycle();
  }

  /** `getStatusClass`, `getStatusText`, `getActionText`, `getActionClass`. */
  function GetStatusClass(activo: bool): (r: string)
    ensures r == "status-active" <==> activo
  {
    if activo then "status-active" else "status-inactive"
  }

  function GetStatusText(activo: bool): (r: string)
    ensures r == "Activo" <==> activo
  {
    if activo then "Activo" else "Inactivo"
  }

  function GetActionText(activo: bool): (r: string)
    ensures r == "Habilitar" <==> !activo
  {
    if activo then "Deshabilitar" else "Habilitar"
  }

  function GetActionClass(activo: bool): (r: string)
    ensures r == "btn-enable" <==> !activo
  {
    if activo then "btn-disable" else "btn-enable"
  }

  /**
   * The four helpers tell the two states apart, and the action offered for a
   * user names the opposite of its current status.
   */
  lemma StatusHelpersOpposite(activo: bool)
    ensures GetStatusText(activo) != GetStatusText(!activo)
    ensures GetStatusClass(activo) != GetStatusClass(!activo)
    ensures GetActionText(activo) != GetActionText(!activo)
    ensures GetActionClass(activo) != GetActionClass(!activo)
    ensures GetActionText(activo) == "Habilitar" <==> GetStatusText(!activo) == "Activo"
  {
  }

  /** The index of the first user with id `id`. */
  function FindIndex(usuarios: seq<Usuario>, id: int): (r: Option<nat>)
    ensures r.None? <==> forall j :: 0 <= j < |usuarios| ==> usuarios[j].id != id
    ensures r.Some? ==> r.value < |usuarios| && usuarios[r.value].id == id
    ensures r.Some? ==> forall j :: 0 <= j < r.value ==> usuarios[j].id != id
  {
    if |usuarios| == 0 then None
    else if usuarios[0].id == id then Some(0)
    else
      match FindIndex(usuarios[1..], id)
      case None => None
      case Some(i) => Some(i + 1)
  }

  /** `usuarios[findIndex(u => u.id === id)] = usuario` when some user matches. */
  function ReplaceUser(usuarios: seq<Usuario>, id: int, usuario: Usuario): (r: seq<Usuario>)
    ensures |r| == |usuarios|
    ensures (forall j :: 0 <= j < |usuarios| ==> usuarios[j].id != id) ==> r == usuarios
    ensures forall i :: 0 <= i < |usuarios| && usuarios[i].id == id && (forall j :: 0 <= j < i ==> usuarios[j].id != id) ==>
      r[i] == usuario && forall j :: 0 <= j < |usuarios| && j != i ==> r[j] == usuarios[j]
  {
    match FindIndex(usuarios, id)
    case None => usuarios
    case Some(i) => usuarios[i := usuario]
  }

  /** Replacing by id: only the first match changes, and a later duplicate id keeps its old entry. */
  lemma ReplaceOnlyFirst(usuarios: seq<Usuario>, id: int, usuario: Usuario, j: int)
    requires 0 <= j < |usuarios| && usuarios[j].id == id
    requires exists i :: 0 <= i < j && usuarios[i].id == id
    ensures ReplaceUser(usuarios, id, usuario)[j] == usuarios[j]
  {
    var k := FindIndex(usuarios, id).value;
    assert k < j;
  }

  datatype ConfigState = ConfigState(usuarios: seq<Usuario>, loading: bool, error: Option<string>)

  /** `loadUsers` as it sends its request. */
  function LoadUsers(st: ConfigState): (r: ConfigState)
    ensures r.loading && r.error == None && r.usuarios == st.usuarios
  {
    st.(loading := true, error := None)
  }

  const ErrorCargar := "Error al cargar usuarios"
  const ErrorConexionCargar := "Error de conexión al cargar usuarios"

  /** `message || default`. */
  function MessageOr(message: string, default: string): (r: string)
    ensures message != "" ==> r == message
    ensures message == "" ==> r == default
  {
    if message != "" then message else default
  }

  /** The outcome of the list request. */
  function OnUsersLoaded(st: ConfigState, result: HttpResult<ApiResponse<seq<Usuario>>>): (r: ConfigState)
    ensures !r.loading
    ensures result.Ok? && result.body.success && result.body.data.Some? ==>
      r.usuarios == result.body.data.value && r.error == st.error
    ensures result.Ok? && !(result.body.success && result.body.data.Some?) ==>
      r.usuarios == st.usuarios && r.error == Some(MessageOr(result.body.message, ErrorCargar))
    ensures result.HttpError? ==> r.usuarios == st.usuarios && r.error == Some(ErrorConexionCargar)
  {
    match result
    case Ok(response) =>
      if response.success && response.data.Some? then st.(usuarios := response.data.value, loading := false)
      else st.(error := Some(MessageOr(response.message, ErrorCargar)), loading := false)
    case HttpError(_) => st.(error := Some(ErrorConexionCargar), loading := false)
  }

  /** The two per-user updates: `toggleUserStatus` and `updateUserType`. */
  datatype Update = ToggleStatus | ChangeType

  function FailureMessage(u: Update): string {
    match u
    case ToggleStatus => "Error al cambiar estado del usuario"
    case ChangeType => "Error al cambiar tipo de usuario"
  }

  function ConnectionMessage(u: Update): string {
    match u
    case ToggleStatus => "Error de conexión al cambiar estado del usuario"
    case ChangeType => "Error de conexión al cambiar tipo de usuario"
  }

  /**
   * The outcome of a per-user update: the returned user replaces the first
   * one with the updated id; a refusal or a transport error sets the error
   * and leaves the list alone.
   */
  function OnUserUpdated(st: ConfigState, usuario: Usuario, u: Update, result: HttpResult<ApiResponse<Usuario>>): (r: ConfigState)
    ensures r.loading == st.loading
    ensures result.Ok? && result.body.success && result.body.data.Some? ==>
      r.usuarios == ReplaceUser(st.usuarios, usuario.id, result.body.data.value) && r.error == st.error
    ensures result.Ok? && !(result.body.success && result.body.data.Some?) ==>
      r.usuarios == st.usuarios && r.error == Some(MessageOr(result.body.message, FailureMessage(u)))
    ensures result.HttpError? ==> r.usuarios == st.usuarios && r.error == Some(ConnectionMessage(u))
  {
    match result
    case Ok(response) =>
      if response.success && response.data.Some? then st.(usuarios := ReplaceUser(st.usuarios, usuario.id, response.data.value))
      else st.(error := Some(MessageOr(response.message, FailureMessage(u))))
    case HttpError(_) => st.(error := Some(ConnectionMessage(u)))
  }

  /** A successful update keeps the list's length and every user whose id differs. */
  lemma UpdateKeepsOthers(st: ConfigState, usuario: Usuario, u: Update, response: ApiResponse<Usuario>)
    requires response.success && response.data.Some?
    ensures var r := OnUserUpdated(st, usuario, u, Ok(response)).usuarios;
      |r| == |st.usuarios| && forall j :: 0 <= j < |r| && st.usuarios[j].id != usuario.id ==> r[j] == st.usuarios[j]
  {
  }

  /** `onUserTypeChange`: the update request `(id, newType)`, sent only when the type actually changes. */
  function OnUserTypeChange(usuario: Usuario, newType: string): (r: Option<(int, string)>)
    ensures r.Some? <==> newType != usuario.tipoUsuario
    ensures r.Some? ==> r.value == (usuario.id, newType)
  {
    if newType != usuario.tipoUsuario then Some((usuario.id, newType)) else None
  }

  /** Loading the list and receiving it shows exactly that list with no error; a transport error keeps the old list. */
  lemma LoadRoundTrip(st: ConfigState, usuarios: seq<Usuario>, message: string, status: int)
    ensures OnUsersLoaded(LoadUsers(st), Ok(ApiResponse(true, Some(usuarios), message))) == ConfigState(usuarios, false, None)
    ensures OnUsersLoaded(LoadUsers(st), HttpError(status)) == ConfigState(st.usuarios, false, Some(ErrorConexionCargar))
    ensures OnUsersLoaded(LoadUsers(st), Ok(ApiResponse(false, Some(usuarios), ""))) == ConfigState(st.usuarios, false, Some(ErrorCargar))
  {
  }

  /**
   * Changing a listed user's type and getting the updated user back puts the
   * new type on that row, and only there; choosing the current type sends
   * nothing.
   */
  lemma TypeChangeRoundTrip(st: ConfigState, i: nat, newType: string, message: string)
    requires i < |st.usuarios| && forall j :: 0 <= j < i ==> st.usuarios[j].id != st.usuarios[i].id
    ensures var u := st.usuarios[i];
      && OnUserTypeChange(u, u.tipoUsuario).None?
      && (newType != u.tipoUsuario ==> OnUserTypeChange(u, newType) == Some((u.id, newType)))
      && var r := OnUserUpdated(st, u, ChangeType, Ok(ApiResponse(true, Some(u.(tipoUsuario := newType)), message))).usuarios;
      && r[i].tipoUsuario == newType && r[i].id == u.id
      && forall j :: 0 <= j < |r| && j != i ==> r[j] == st.usuarios[j]
  {
  }
}
