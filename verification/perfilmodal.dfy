/**
 * The profile modal: the logged-in user's details, the edit form, and the
 * password change form with its cross-field check.
 */
module PerfilModal {
  import opened Common
  import opened Usuarios
  import ConfiguracionModal

  datatype View = Profile | Edit | Password

  /** The edit form's value. */
  datatype ProfileData = ProfileData(nombre: string, apellido: string, email: string)

  /** The password form's value; `reset()` sets every control to `null`. */
  datatype PasswordForm = PasswordForm(currentPassword: Option<string>, newPassword: Option<string>, confirmPassword: Option<string>)

  const EmptyPasswordForm := PasswordForm(None, None, None)

  datatype ModalState = ModalState(
    user: Option<Usuario>, perfilForm: ProfileData, passwordForm: PasswordForm,
    currentView: View, isLoading: bool)

  function DataOf(u: Usuario): ProfileData {
    ProfileData(u.nombre, u.apellido, u.email)
  }

  /** The state after construction and `ngOnInit`: the edit form holds the user's details when there is a user. */
  function Init(user: Option<Usuario>): (r: ModalState)
    ensures r.currentView == Profile && !r.isLoading
    ensures user.Some? ==> r.perfilForm == DataOf(user.value)
    ensures user.None? ==> r.perfilForm == ProfileData("", "", "")
    ensures r.passwordForm == PasswordForm(Some(""), Some(""), Some(""))
  {
    var blank := ProfileData("", "", "");
    ModalState(user, if user.Some? then DataOf(user.value) else blank,
               PasswordForm(Some(""), Some(""), Some("")), Profile, false)
  }

  /** `passwordMatchValidator`: the group error is raised exactly when the two new-password controls differ. */
  predicate PasswordMismatch(f: PasswordForm) {
    f.newPassword != f.confirmPassword
  }

  /** A freshly reset form and any form whose confirmation repeats the new password pass the check. */
  lemma MatchingPasswordsPass(f: PasswordForm, p: string)
    ensures !PasswordMismatch(EmptyPasswordForm)
    ensures !PasswordMismatch(f.(newPassword := Some(p), confirmPassword := Some(p)))
    ensures PasswordMismatch(f.(newPassword := Some(p), confirmPassword := None))
  {
  }

  /** `switchView`: the edit view reloads the form from the user; no other view touches it. */
  function SwitchView(st: ModalState, view: View): (r: ModalState)
    ensures r.currentView == view
    ensures r.user == st.user && r.passwordForm == st.passwordForm && r.isLoading == st.isLoading
    ensures view == Edit && st.user.Some? ==> r.perfilForm == DataOf(st.user.value)
    ensures !(view == Edit && st.user.Some?) ==> r.perfilForm == st.perfilForm
  {
    var st1 := st.(currentView := view);
    if view == Edit && st.user.Some? then st1.(perfilForm := DataOf(st.user.value)) else st1
  }

  /** A request `updateProfile(id, data)`. */
  datatype ProfileRequest = ProfileRequest(id: int, data: ProfileData)

  /**
   * `onSubmitProfile` as it sends: with a valid form (the built-in validators,
   * a flag here) and a user, a request carrying the user's id and the form's
   * value; otherwise nothing happens.
   */
  function OnSubmitProfile(st: ModalState, formValid: bool): (r: (ModalState, Option<ProfileRequest>))
    ensures r.1.Some? <==> formValid && st.user.Some?
    ensures r.1.Some? ==> r.0 == st.(isLoading := true) && r.1.value == ProfileRequest(st.user.value.id, st.perfilForm)
    ensures r.1.None? ==> r.0 == st
  {
    if formValid && st.user.Some? then (st.(isLoading := true), Some(ProfileRequest(st.user.value.id, st.perfilForm)))
    else (st, None)
  }

  /** `{ ...user, ...profileData }`. */
  function Merge(u: Usuario, data: ProfileData): (r: Usuario)
    ensures DataOf(r) == data
    ensures r.id == u.id && r.tipoUsuario == u.tipoUsuario && r.activo == u.activo
    ensures r.fechaCreacion == u.fechaCreacion && r.fechaActualizacion == u.fechaActualizacion
  {
    u.(nombre := data.nombre, apellido := data.apellido, email := data.email)
  }

  /**
   * The outcome of `updateProfile`: loading ends; on success the user takes the
   * submitted details and the modal returns to the profile view.
   */
  function OnProfileUpdated(st: ModalState, data: ProfileData, result: HttpResult<ApiResponse<Usuario>>): (r: ModalState)
    ensures !r.isLoading && r.passwordForm == st.passwordForm && r.perfilForm == st.perfilForm
    ensures result.Ok? && result.body.success ==>
      r.currentView == Profile && r.user == (if st.user.Some? then Some(Merge(st.user.value, data)) else None)
    ensures !(result.Ok? && result.body.success) ==> r.currentView == st.currentView && r.user == st.user
  {
    var st1 := st.(isLoading := false);
    match result
    case Ok(response) =>
      if response.success then
        st1.(user := if st.user.Some? then Some(Merge(st.user.value, data)) else None, currentView := Profile)
      else st1
    case HttpError(_) => st1
  }

  /** Submitting the edit form and getting a success back shows the new details in the profile view. */
  lemma ProfileRoundTrip(st: ModalState, response: ApiResponse<Usuario>)
    requires st.user.Some? && response.success
    ensures var (st1, req) := OnSubmitProfile(st, true);
      req.Some? &&
      var st2 := OnProfileUpdated(st1, req.value.data, Ok(response));
      st2.user.Some? && DataOf(st2.user.value) == st.perfilForm && st2.user.value.id == st.user.value.id &&
      st2.currentView == Profile && !st2.isLoading
  {
  }

  /** A request `changePassword(id, current, new)`. */
  datatype PasswordRequest = PasswordRequest(id: int, currentPassword: Option<string>, newPassword: Option<string>)

  /**
   * `onSubmitPassword` as it sends. The form is valid when its built-in
   * validators pass (a flag here) and the two new-password controls match.
   */
  function OnSubmitPassword(st: ModalState, controlsValid: bool): (r: (ModalState, Option<PasswordRequest>))
    ensures r.1.Some? <==> controlsValid && !PasswordMismatch(st.passwordForm) && st.user.Some?
    ensures r.1.Some? ==> r.0 == st.(isLoading := true)
    ensures r.1.Some? ==> r.1.value == PasswordRequest(st.user.value.id, st.passwordForm.currentPassword, st.passwordForm.newPassword)
    ensures r.1.None? ==> r.0 == st
  {
    var valid := controlsValid && !PasswordMismatch(st.passwordForm);
    if valid && st.user.Some? then
      (st.(isLoading := true), Some(PasswordRequest(st.user.value.id, st.passwordForm.currentPassword, st.passwordForm.newPassword)))
    else (st, None)
  }

  /** The outcome of `changePassword`: on success the form is reset and the profile view shown. */
  function OnPasswordChanged(st: ModalState, result: HttpResult<ApiResponse<bool>>): (r: ModalState)
    ensures !r.isLoading && r.user == st.user && r.perfilForm == st.perfilForm
    ensures result.Ok? && result.body.success ==> r.passwordForm == EmptyPasswordForm && r.currentView == Profile
    ensures !(result.Ok? && result.body.success) ==> r.passwordForm == st.passwordForm && r.currentView == st.currentView
  {
    var st1 := st.(isLoading := false);
    match result
    case Ok(response) =>
      if response.success then st1.(passwordForm := EmptyPasswordForm, currentView := Profile) else st1
    case HttpError(_) => st1
  }

  /** A confirmation that differs from the new password never reaches the server. */
  lemma MismatchNeverSent(st: ModalState, controlsValid: bool)
    requires st.passwordForm.newPassword != st.passwordForm.confirmPassword
    ensures OnSubmitPassword(st, controlsValid).1.None?
  {
  }

  /** `getTipoUsuarioDisplay(tipo?)`: an absent or empty role reads 'No especificado'. */
  function TipoUsuarioDisplay(tipo: Option<string>): (r: string)
    ensures tipo.None? || tipo.value == "" ==> r == "No especificado"
  {
    if tipo.None? || tipo.value == "" then "No especificado"
    else ConfiguracionModal.GetTipoUsuarioDisplay(tipo.value)
  }

  /** For a present, non-empty role the profile modal shows the settings table's name. */
  lemma DisplayAgreesWithSettings(tipo: string)
    requires tipo != ""
    ensures TipoUsuarioDisplay(Some(tipo)) == ConfiguracionModal.GetTipoUsuarioDisplay(tipo)
    ensures tipo !in ConfiguracionModal.Tipos ==> TipoUsuarioDisplay(Some(tipo)) == tipo
  {
  }

  /** `formatDate(date?)`; the Spanish long-date rendering is the parameter `render`. */
  function FormatDate(date: Option<string>, render: string -> string): (r: string)
    ensures date.None? || date.value == "" ==> r == "No disponible"
    ensures date.Some? && date.value != "" ==> r == render(date.value)
  {
    if date.None? || date.value == "" then "No disponible" else render(date.value)
  }

  /** Opening the edit view right after construction shows the user's details; without a user, no profile request is possible. */
  lemma InitThenEdit(user: Option<Usuario>, formValid: bool)
    ensures user.Some? ==> SwitchView(Init(user), Edit).perfilForm == DataOf(user.value)
    ensures user.None? ==> OnSubmitProfile(Init(user), formValid).1.None?
  {
  }

  /** After a successful profile update, reopening the edit view shows the submitted details. */
  lemma EditAfterUpdate(st: ModalState, response: ApiResponse<Usuario>)
    requires st.user.Some? && response.success
    ensures var (st1, req) := OnSubmitProfile(st, true);
      req.Some? && SwitchView(OnProfileUpdated(st1, req.value.data, Ok(response)), Edit).perfilForm == st.perfilForm
  {
  }

  /**
   * Submitting matching passwords and getting a success back resets the form
   * and returns to the profile view; a failure keeps the typed values, so
   * submitting again sends the same request.
   */
  lemma PasswordRoundTrip(st: ModalState, response: ApiResponse<bool>, status: int)
    requires st.user.Some? && !PasswordMismatch(st.passwordForm)
    ensures var (st1, req) := OnSubmitPassword(st, true);
      && req.Some?
      && var ok := OnPasswordChanged(st1, Ok(response.(success := true)));
      && ok.passwordForm == EmptyPasswordForm && !PasswordMismatch(ok.passwordForm)
      && ok.currentView == Profile && !ok.isLoading && ok.user == st.user
      && var failed := OnPasswordChanged(st1, HttpError(status));
      && OnSubmitPassword(failed, true).1 == req
  {
  }

  /** When the renderer never yields the placeholder text, 'No disponible' shows exactly for a missing date. */
  lemma MissingDateIff(date: Option<string>, render: string -> string)
    requires forall s :: render(s) != "No disponible"
    ensures FormatDate(date, render) == "No disponible" <==> date.None? || date.value == ""
  {
  }
}
