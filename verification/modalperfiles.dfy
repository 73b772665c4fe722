/**
 * The profile-list modal: opening and loading, selecting an active profile,
 * and the flags of its nested form, deactivation and reactivation dialogs.
 * The profile service's state travels alongside the component's own; the
 * component's `perfilActivo` mirrors the service's through a subscription.
 */
module ModalPerfiles {
  import opened Common
  import opened LocalStorage
  import opened PerfilesPlantas
  import opened Strings
  import TokenService

  datatype ModalState = ModalState(
    perfiles: seq<PerfilPlanta>,
    perfilActivo: Option<PerfilPlanta>,
    cargandoPerfiles: bool,
    showFormModal: bool,
    perfilParaEditar: Option<PerfilPlanta>,
    showDeleteModal: bool,
    perfilParaEliminar: Option<PerfilPlanta>,
    showReactivateModal: bool,
    perfilParaReactivar: Option<PerfilPlanta>)

  /** Events the modal emits: `perfilSeleccionado` and `cerrarModal`. */
  datatype ModalEvent = PerfilSeleccionado(perfil: PerfilPlanta) | CerrarModal

  /** The component's state after a handler, whether it asked the service to (re)load, and any alert shown. */
  datatype Step = Step(modal: ModalState, service: ServiceState, events: seq<ModalEvent>, recargar: bool, alert: Option<string>)

  /**
   * `ngOnChanges` for `show`: opening the modal shows the loading state,
   * empties the list and asks the service for the list and the remembered
   * active profile; any other change does nothing.
   */
  function OnShowChange(m: ModalState, show: bool): (r: (ModalState, bool))
    ensures show ==> r.0.cargandoPerfiles && r.0.perfiles == [] && r.1
    ensures show ==> r.0 == m.(cargandoPerfiles := true, perfiles := [])
    ensures !show ==> r.0 == m && !r.1
  {
    if show then (m.(cargandoPerfiles := true, perfiles := []), true) else (m, false)
  }

  /** The `perfiles$` subscription: the list arrives and loading ends. */
  function OnPerfilesEmitidos(m: ModalState, perfiles: seq<PerfilPlanta>): (r: ModalState)
    ensures r.perfiles == perfiles && !r.cargandoPerfiles
    ensures r.perfilActivo == m.perfilActivo
  {
    m.(perfiles := perfiles, cargandoPerfiles := false)
  }

  /** `crearNuevoPerfil`: the form opens with nothing to edit. */
  function CrearNuevoPerfil(m: ModalState): (r: ModalState)
    ensures r.showFormModal && r.perfilParaEditar == None
    ensures r.(showFormModal := m.showFormModal, perfilParaEditar := m.perfilParaEditar) == m
  {
    m.(perfilParaEditar := None, showFormModal := true)
  }

  /** `editarPerfil`: the form opens on `perfil`. */
  function EditarPerfil(m: ModalState, perfil: PerfilPlanta): (r: ModalState)
    ensures r.showFormModal && r.perfilParaEditar == Some(perfil)
    ensures r.(showFormModal := m.showFormModal, perfilParaEditar := m.perfilParaEditar) == m
  {
    m.(perfilParaEditar := Some(perfil), showFormModal := true)
  }

  /** `cerrarFormModal`. */
  function CerrarFormModal(m: ModalState): (r: ModalState)
    ensures !r.showFormModal && r.perfilParaEditar == None
    ensures r.(showFormModal := m.showFormModal, perfilParaEditar := m.perfilParaEditar) == m
  {
    m.(showFormModal := false, perfilParaEditar := None)
  }

  /** Opening the form, for a new profile or an existing one, and closing it again restores the closed form. */
  lemma FormOpenClose(m: ModalState, perfil: PerfilPlanta)
    ensures CerrarFormModal(EditarPerfil(m, perfil)) == CerrarFormModal(m)
    ensures CerrarFormModal(CrearNuevoPerfil(m)) == CerrarFormModal(m)
    ensures !m.showFormModal && m.perfilParaEditar == None ==> CerrarFormModal(EditarPerfil(m, perfil)) == m
  {
  }

  /** The `perfilActivo$` subscription: the service's active profile is copied into the component. */
  function OnPerfilActivoEmitido(m: ModalState, perfil: Option<PerfilPlanta>): (r: ModalState)
    ensures r.perfilActivo == perfil
    ensures r.(perfilActivo := m.perfilActivo) == m
  {
    m.(perfilActivo := perfil)
  }

  /** The component's copy of the active profile agrees with the service's subject. */
  predicate Mirrors(m: ModalState, svc: ServiceState) {
    m.perfilActivo == svc.perfilActivo
  }

  /**
   * `seleccionarPerfil`: an inactive profile is ignored; an active one
   * becomes the service's active profile, reaches the component's copy at
   * once through the subscription (the subject emits synchronously), is
   * emitted, and the modal asks to be closed.
   */
  function SeleccionarPerfil(m: ModalState, svc: ServiceState, perfil: PerfilPlanta): (r: Step)
    ensures !r.recargar && r.alert == None
    ensures !perfil.activo ==> r.modal == m && r.service == svc && r.events == []
    ensures perfil.activo ==> r.service == SeleccionarPerfilActivo(svc, Some(perfil))
    ensures perfil.activo ==> r.modal == OnPerfilActivoEmitido(m, Some(perfil))
    ensures perfil.activo ==> r.events == [PerfilSeleccionado(perfil), CerrarModal]
  {
    if !perfil.activo then Step(m, svc, [], false, None)
    else
      var svc' := SeleccionarPerfilActivo(svc, Some(perfil));
      Step(OnPerfilActivoEmitido(m, svc'.perfilActivo), svc', [PerfilSeleccionado(perfil), CerrarModal], false, None)
  }

  /** Only an active profile ever becomes the active profile through the modal. */
  lemma SelectionIsActive(m: ModalState, svc: ServiceState, perfil: PerfilPlanta)
    requires svc.perfilActivo.None? || svc.perfilActivo.value.activo
    ensures var r := SeleccionarPerfil(m, svc, perfil).service;
      r.perfilActivo.None? || r.perfilActivo.value.activo
  {
  }

  /** After selecting an active profile the modal reports its id as the active one; an inactive choice changes nothing. */
  lemma SelectThenActiveId(m: ModalState, svc: ServiceState, perfil: PerfilPlanta)
    ensures perfil.activo && perfil.id != 0 ==> PerfilActivoId(SeleccionarPerfil(m, svc, perfil).modal) == Some(perfil.id)
    ensures !perfil.activo ==> PerfilActivoId(SeleccionarPerfil(m, svc, perfil).modal) == PerfilActivoId(m)
    ensures perfil.activo ==> GetItem(SeleccionarPerfil(m, svc, perfil).service.store, ActiveProfileKey) == Some(IntToString(perfil.id))
  {
  }

  /** `eliminarPerfil`: the deactivation dialog opens on `perfil`. */
  function EliminarPerfil(m: ModalState, perfil: PerfilPlanta): (r: ModalState)
    ensures r.showDeleteModal && r.perfilParaEliminar == Some(perfil)
    ensures r.(showDeleteModal := m.showDeleteModal, perfilParaEliminar := m.perfilParaEliminar) == m
  {
    m.(perfilParaEliminar := Some(perfil), showDeleteModal := true)
  }

  /** `cerrarModalEliminar`. */
  function CerrarModalEliminar(m: ModalState): (r: ModalState)
    ensures !r.showDeleteModal && r.perfilParaEliminar == None
    ensures r.(showDeleteModal := m.showDeleteModal, perfilParaEliminar := m.perfilParaEliminar) == m
  {
    m.(showDeleteModal := false, perfilParaEliminar := None)
  }

  /** `reactivarPerfil`: the reactivation dialog opens on `perfil`. */
  function ReactivarPerfil(m: ModalState, perfil: PerfilPlanta): (r: ModalState)
    ensures r.showReactivateModal && r.perfilParaReactivar == Some(perfil)
    ensures r.(showReactivateModal := m.showReactivateModal, perfilParaReactivar := m.perfilParaReactivar) == m
  {
    m.(perfilParaReactivar := Some(perfil), showReactivateModal := true)
  }

  /** `cerrarModalReactivar`. */
  function CerrarModalReactivar(m: ModalState): (r: ModalState)
    ensures !r.showReactivateModal && r.perfilParaReactivar == None
    ensures r.(showReactivateModal := m.showReactivateModal, perfilParaReactivar := m.perfilParaReactivar) == m
  {
    m.(showReactivateModal := false, perfilParaReactivar := None)
  }

  /** The two confirmation dialogs open and close independently and symmetrically. */
  lemma DialogsOpenClose(m: ModalState, perfil: PerfilPlanta)
    ensures CerrarModalEliminar(EliminarPerfil(m, perfil)) == CerrarModalEliminar(m)
    ensures CerrarModalReactivar(ReactivarPerfil(m, perfil)) == CerrarModalReactivar(m)
    ensures EliminarPerfil(m, perfil).showReactivateModal == m.showReactivateModal
    ensures ReactivarPerfil(m, perfil).showDeleteModal == m.showDeleteModal
  {
  }

  /** `confirmarEliminacion`: the id to deactivate, or nothing when no profile is pending. */
  function ConfirmarEliminacion(m: ModalState): (r: Option<int>)
    ensures r.Some? <==> m.perfilParaEliminar.Some?
    ensures r.Some? ==> r.value == m.perfilParaEliminar.value.id
  {
    match m.perfilParaEliminar
    case Some(p) => Some(p.id)
    case None => None
  }

  /** `a?.id === b?.id`: both absent, or both present with equal ids. */
  predicate SameId(a: Option<PerfilPlanta>, b: Option<PerfilPlanta>) {
    if a.Some? && b.Some? then a.value.id == b.value.id else a.None? && b.None?
  }

  const ErrorDesactivar := "Error al desactivar el perfil"

  /**
   * The outcome of the deactivation: on success the list is reloaded, the
   * active profile is cleared (in the service and, through the subscription,
   * in the component) when it is the one deactivated, and the dialog closes;
   * on failure only an alert is shown.
   */
  function OnDesactivado(m: ModalState, svc: ServiceState, ok: bool): (r: Step)
    ensures r.events == []
    ensures ok ==> r.recargar && r.alert == None
    ensures ok && SameId(m.perfilActivo, m.perfilParaEliminar) ==>
      r.service == SeleccionarPerfilActivo(svc, None) && r.modal == OnPerfilActivoEmitido(CerrarModalEliminar(m), None)
    ensures ok && !SameId(m.perfilActivo, m.perfilParaEliminar) ==> r.service == svc && r.modal == CerrarModalEliminar(m)
    ensures !ok ==> r.modal == m && r.service == svc && !r.recargar && r.alert == Some(ErrorDesactivar)
  {
    if !ok then Step(m, svc, [], false, Some(ErrorDesactivar))
    else if SameId(m.perfilActivo, m.perfilParaEliminar) then
      var svc' := SeleccionarPerfilActivo(svc, None);
      Step(CerrarModalEliminar(OnPerfilActivoEmitido(m, svc'.perfilActivo)), svc', [], true, None)
    else Step(CerrarModalEliminar(m), svc, [], true, None)
  }

  /**
   * Deactivating a pending profile clears the active one exactly when the
   * ids agree, in the service and in the modal; an unrelated active profile
   * and its remembered id survive.
   */
  lemma DeactivationDeselectsIff(m: ModalState, svc: ServiceState, p: PerfilPlanta)
    requires m.perfilParaEliminar == Some(p) && Mirrors(m, svc)
    ensures var r := OnDesactivado(m, svc, true);
      && (r.service.perfilActivo.None? <==> svc.perfilActivo.None? || svc.perfilActivo.value.id == p.id)
      && Mirrors(r.modal, r.service)
      && (svc.perfilActivo.Some? && svc.perfilActivo.value.id != p.id ==> r.service.store == svc.store)
      && (svc.perfilActivo.Some? && svc.perfilActivo.value.id == p.id ==> ActiveProfileKey !in r.service.store)
  {
  }

  /** Asking to deactivate the active profile and confirming leaves the modal with no active id and the dialog closed. */
  lemma DeleteRoundTrip(m: ModalState, svc: ServiceState, p: PerfilPlanta)
    requires Mirrors(m, svc) && svc.perfilActivo == Some(p)
    ensures var m1 := EliminarPerfil(m, p);
      && ConfirmarEliminacion(m1) == Some(p.id)
      && var r := OnDesactivado(m1, svc, true);
      && PerfilActivoId(r.modal) == None && r.service.perfilActivo == None
      && !r.modal.showDeleteModal && r.recargar
      && ActiveProfileKey !in r.service.store
  {
  }

  /** `confirmarReactivacion`: the id to reactivate, or nothing when no profile is pending. */
  function ConfirmarReactivacion(m: ModalState): (r: Option<int>)
    ensures r.Some? <==> m.perfilParaReactivar.Some?
    ensures r.Some? ==> r.value == m.perfilParaReactivar.value.id
  {
    match m.perfilParaReactivar
    case Some(p) => Some(p.id)
    case None => None
  }

  const ErrorReactivar := "Error al reactivar el perfil"

  /** The outcome of the reactivation: reload and close on success, an alert on failure. */
  function OnReactivado(m: ModalState, svc: ServiceState, ok: bool): (r: Step)
    ensures r.service == svc && r.events == []
    ensures ok ==> r.recargar && r.alert == None && r.modal == CerrarModalReactivar(m)
    ensures !ok ==> r.modal == m && !r.recargar && r.alert == Some(ErrorReactivar)
  {
    if ok then Step(CerrarModalReactivar(m), svc, [], true, None)
    else Step(m, svc, [], false, Some(ErrorReactivar))
  }

  /** Confirming a reactivation requests the pending id; success closes the dialog and reloads, failure leaves it open. */
  lemma ReactivateRoundTrip(m: ModalState, svc: ServiceState, p: PerfilPlanta)
    ensures var m1 := ReactivarPerfil(m, p);
      && ConfirmarReactivacion(m1) == Some(p.id)
      && OnReactivado(m1, svc, true).modal == CerrarModalReactivar(m)
      && OnReactivado(m1, svc, true).recargar
      && OnReactivado(m1, svc, false).modal.showReactivateModal
  {
  }

  /** Opening the modal and receiving the list ends loading and shows exactly that list. */
  lemma OpenThenLoaded(m: ModalState, perfiles: seq<PerfilPlanta>)
    ensures var (m1, load) := OnShowChange(m, true);
      && load && m1.cargandoPerfiles
      && OnPerfilesEmitidos(m1, perfiles) == m.(perfiles := perfiles, cargandoPerfiles := false)
  {
  }

  /**
   * Opening without a session: `cargarPerfiles` publishes the empty list at
   * once, so the loading state ends within the same change, on an empty list.
   */
  lemma OpenWithoutTokenSettles(m: ModalState, svc: ServiceState, apiUrl: string, decode: string -> TokenService.UserInfo)
    requires !TokenService.HasToken(svc.store)
    ensures var (m1, load) := OnShowChange(m, true);
      var call := CargarPerfiles(svc, apiUrl, decode);
      && load && call.request == None && call.state.perfiles == []
      && OnPerfilesEmitidos(m1, call.state.perfiles) == m.(perfiles := [], cargandoPerfiles := false)
  {
  }

  /** `perfilActivoId`: `perfilActivo?.id || null`, so an id of 0 reads as no active profile. */
  function PerfilActivoId(m: ModalState): (r: Option<int>)
    ensures r.Some? <==> m.perfilActivo.Some? && m.perfilActivo.value.id != 0
    ensures r.Some? ==> r.value == m.perfilActivo.value.id
  {
    if m.perfilActivo.Some? && m.perfilActivo.value.id != 0 then Some(m.perfilActivo.value.id) else None
  }

  /**
   * Every handler keeps the component's copy of the active profile equal to
   * the service's: the selection and deactivation handlers update both, the
   * rest touch neither, and a reloaded active profile reaches the component
   * through the subscription.
   */
  lemma HandlersKeepMirror(m: ModalState, svc: ServiceState, perfil: PerfilPlanta, ok: bool, show: bool,
                           perfiles: seq<PerfilPlanta>, loaded: HttpResult<PerfilPlanta>)
    requires Mirrors(m, svc)
    ensures var r := SeleccionarPerfil(m, svc, perfil); Mirrors(r.modal, r.service)
    ensures var r := OnDesactivado(m, svc, ok); Mirrors(r.modal, r.service)
    ensures var r := OnReactivado(m, svc, ok); Mirrors(r.modal, r.service)
    ensures Mirrors(OnShowChange(m, show).0, svc) && Mirrors(OnPerfilesEmitidos(m, perfiles), svc)
    ensures Mirrors(CrearNuevoPerfil(m), svc) && Mirrors(EditarPerfil(m, perfil), svc) && Mirrors(CerrarFormModal(m), svc)
    ensures Mirrors(EliminarPerfil(m, perfil), svc) && Mirrors(CerrarModalEliminar(m), svc)
    ensures Mirrors(ReactivarPerfil(m, perfil), svc) && Mirrors(CerrarModalReactivar(m), svc)
    ensures var svc' := OnPerfilActivoCargado(svc, loaded); Mirrors(OnPerfilActivoEmitido(m, svc'.perfilActivo), svc')
  {
  }
}
