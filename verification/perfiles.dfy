/**
 * The plant-profile service: the profile list, the active profile and the
 * `perfil_activo_id` storage key that remembers it across sessions. HTTP
 * calls are split into the request the service makes and a handler that
 * receives the outcome; `environment.apiUrl` is a parameter.
 */
module PerfilesPlantas {
  import opened Common
  import opened Strings
  import opened LocalStorage
  import opened TokenService
  import opened RoleService

  /**
   * A plant profile. The optional attributes (ranges, descriptions, dates) are
   * kept as their displayed text under their attribute name, present only
   * when the attribute is neither null nor undefined.
   */
  datatype PerfilPlanta = PerfilPlanta(id: int, nombre: string, activo: bool, campos: map<string, string>)

  /** The service's two subjects and the browser storage. */
  datatype ServiceState = ServiceState(perfiles: seq<PerfilPlanta>, perfilActivo: Option<PerfilPlanta>, store: Store)

  function PerfilesUrl(apiUrl: string): string {
    apiUrl + "/plant-profiles"
  }

  const IncluirInactivos := "?incluirInactivos=true"

  /** `${apiUrl}/${id}` for a number, where `parseInt` may have produced `NaN` (`None`). */
  function PerfilUrl(apiUrl: string, id: Option<int>): (r: string)
    ensures StartsWith(r, PerfilesUrl(apiUrl) + "/")
  {
    var base := PerfilesUrl(apiUrl) + "/";
    var r := base + (if id.Some? then IntToString(id.value) else "NaN");
    assert r[..|base|] == base;
    r
  }

  /**
   * `seleccionarPerfilActivo`: the active profile becomes `perfil`; its id is
   * remembered as decimal text, or the key is removed when `perfil` is null.
   */
  function SeleccionarPerfilActivo(st: ServiceState, perfil: Option<PerfilPlanta>): (r: ServiceState)
    ensures r.perfilActivo == perfil && r.perfiles == st.perfiles
    ensures perfil.Some? ==> GetItem(r.store, ActiveProfileKey) == Some(IntToString(perfil.value.id))
    ensures perfil.None? ==> GetItem(r.store, ActiveProfileKey) == None
    ensures forall k :: k != ActiveProfileKey ==> GetItem(r.store, k) == GetItem(st.store, k)
  {
    match perfil
    case Some(p) => st.(perfilActivo := perfil, store := SetItem(st.store, ActiveProfileKey, IntToString(p.id)))
    case None => st.(perfilActivo := None, store := RemoveItem(st.store, ActiveProfileKey))
  }

  /** Selecting a profile and then clearing the selection leaves no key behind and every other key as it was. */
  lemma SelectThenClear(st: ServiceState, p: PerfilPlanta)
    ensures var r := SeleccionarPerfilActivo(SeleccionarPerfilActivo(st, Some(p)), None);
      && r.perfilActivo == None
      && ActiveProfileKey !in r.store
      && r.store == RemoveItem(st.store, ActiveProfileKey)
  {
  }

  /** What a call returns to the caller and leaves behind, plus the URL it requests, if any. */
  datatype Call = Call(state: ServiceState, request: Option<string>)

  /**
   * `cargarPerfiles`: without a token the list is emptied and nothing is
   * requested; otherwise the list endpoint is requested, asking for inactive
   * profiles too when the user is an administrator.
   */
  function CargarPerfiles(st: ServiceState, apiUrl: string, decode: string -> UserInfo): (r: Call)
    ensures r.request.Some? <==> HasToken(st.store)
    ensures !HasToken(st.store) ==> r.state == st.(perfiles := [])
    ensures HasToken(st.store) ==> r.state == st
    ensures r.request.Some? ==> StartsWith(r.request.value, PerfilesUrl(apiUrl))
  {
    if !HasToken(st.store) then Call(st.(perfiles := []), None)
    else
      var params := if EsAdministrador(st.store, decode) then IncluirInactivos else "";
      var url := PerfilesUrl(apiUrl) + params;
      assert url[..|PerfilesUrl(apiUrl)|] == PerfilesUrl(apiUrl);
      Call(st, Some(url))
  }

  /** The request asks for inactive profiles exactly when the stored user is an administrator. */
  lemma InactiveOnlyForAdmin(st: ServiceState, apiUrl: string, decode: string -> UserInfo)
    requires HasToken(st.store)
    ensures EndsWith(CargarPerfiles(st, apiUrl, decode).request.value, IncluirInactivos)
      <==> EsAdministrador(st.store, decode)
  {
    var url := CargarPerfiles(st, apiUrl, decode).request.value;
    if !EsAdministrador(st.store, decode) {
      assert url == PerfilesUrl(apiUrl) + "";
      assert url[|url| - 1] == 's' && IncluirInactivos[|IncluirInactivos| - 1] == 'e';
    }
  }

  /**
   * The outcome of the list request: the list on success; on failure an
   * empty list, and the session cleared only for a 401.
   */
  function OnPerfilesCargados(st: ServiceState, result: HttpResult<seq<PerfilPlanta>>): (r: ServiceState)
    ensures r.perfilActivo == st.perfilActivo
    ensures result.Ok? ==> r.perfiles == result.body && r.store == st.store
    ensures result.HttpError? ==> r.perfiles == []
    ensures result.HttpError? && result.status == 401 ==> r.store == ClearAuth(st.store)
    ensures !(result.HttpError? && result.status == 401) ==> r.store == st.store
  {
    match result
    case Ok(perfiles) => st.(perfiles := perfiles)
    case HttpError(status) =>
      var store := if status == 401 then ClearAuth(st.store) else st.store;
      st.(perfiles := [], store := store)
  }

  /** A failed load never loses the remembered active profile, even when it ends the session. */
  lemma FailedLoadKeepsSelection(st: ServiceState, status: int)
    ensures GetItem(OnPerfilesCargados(st, HttpError(status)).store, ActiveProfileKey)
      == GetItem(st.store, ActiveProfileKey)
    ensures status == 401 ==> !HasToken(OnPerfilesCargados(st, HttpError(status)).store)
  {
  }

  /**
   * `cargarPerfilActivoGuardado`: with a token and a non-empty remembered id,
   * the profile whose id `parseInt` reads from it is requested (`Some(None)`
   * stands for `NaN`); otherwise nothing happens.
   */
  function CargarPerfilActivoGuardado(st: ServiceState): (r: Option<Option<int>>)
    ensures r.Some? <==> HasToken(st.store) && ActiveProfileKey in st.store && st.store[ActiveProfileKey] != ""
    ensures r.Some? ==> r.value == ParseInt(st.store[ActiveProfileKey])
  {
    if !HasToken(st.store) then None
    else
      var perfilActivoId := GetItem(st.store, ActiveProfileKey);
      if Truthy(perfilActivoId) then Some(ParseInt(perfilActivoId.value)) else None
  }

  /** A remembered selection is requested again by the same id in a later session with a token. */
  lemma SelectionSurvivesReload(st: ServiceState, p: PerfilPlanta)
    requires HasToken(st.store)
    ensures CargarPerfilActivoGuardado(SeleccionarPerfilActivo(st, Some(p))) == Some(Some(p.id))
  {
    var r := SeleccionarPerfilActivo(st, Some(p));
    assert GetItem(r.store, TokenKey) == GetItem(st.store, TokenKey);
    ParseIntToString(p.id);
  }

  /** The outcome of that request: the profile on success; on failure no active profile and no remembered id. */
  function OnPerfilActivoCargado(st: ServiceState, result: HttpResult<PerfilPlanta>): (r: ServiceState)
    ensures r.perfiles == st.perfiles
    ensures result.Ok? ==> r.perfilActivo == Some(result.body) && r.store == st.store
    ensures result.HttpError? ==> r.perfilActivo == None && ActiveProfileKey !in r.store
    ensures forall k :: k != ActiveProfileKey ==> GetItem(r.store, k) == GetItem(st.store, k)
  {
    match result
    case Ok(perfil) => st.(perfilActivo := Some(perfil))
    case HttpError(_) => st.(perfilActivo := None, store := RemoveItem(st.store, ActiveProfileKey))
  }

  /** The id written into a profile URL reads back as the same number. */
  lemma PerfilUrlReadsBack(apiUrl: string, id: int)
    ensures var base := PerfilesUrl(apiUrl) + "/";
      var url := PerfilUrl(apiUrl, Some(id));
      |base| <= |url| && ParseInt(url[|base|..]) == Some(id)
  {
    var base := PerfilesUrl(apiUrl) + "/";
    var digits := IntToString(id);
    assert PerfilUrl(apiUrl, Some(id)) == base + digits;
    assert (base + digits)[|base|..] == digits;
    ParseIntToString(id);
  }

  /** A failed `parseInt` is written as 'NaN', which names no profile: it reads back as nothing. */
  lemma NaNUrl(apiUrl: string)
    ensures PerfilUrl(apiUrl, None) == PerfilesUrl(apiUrl) + "/NaN"
    ensures ParseInt("NaN") == None
  {
    assert forall i :: 0 <= i < |"NaN"| ==> !IsDigit("NaN"[i]);
  }

  /**
   * Reloading a remembered selection: a successful fetch makes the fetched
   * profile active and keeps the remembered id; a failed one forgets it, so
   * the next session requests nothing.
   */
  lemma ReloadOutcome(st: ServiceState, p: PerfilPlanta, q: PerfilPlanta, status: int)
    requires HasToken(st.store)
    ensures var sel := SeleccionarPerfilActivo(st, Some(p));
      && var ok := OnPerfilActivoCargado(sel, Ok(q));
      && ok.perfilActivo == Some(q) && CargarPerfilActivoGuardado(ok) == Some(Some(p.id))
    ensures CargarPerfilActivoGuardado(OnPerfilActivoCargado(st, HttpError(status))) == None
  {
    var sel := SeleccionarPerfilActivo(st, Some(p));
    SelectionSurvivesReload(st, p);
    var ok := OnPerfilActivoCargado(sel, Ok(q));
    assert ok.store == sel.store;
  }
}
