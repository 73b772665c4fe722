# SMIIVERN front end: decision logic in Dafny

SMIIVERN is an Angular dashboard for a plant-growing sensor station. This project models the parts of it that decide something. Each one is written as pure functions over immutable data, and the contracts and lemmas state what the code promises.

- **Report engine.** `analyzeData`, the band classifiers, the overall status and the ordered recommendation rules behind the PDF report.
- **Roles.** The role service's permission predicates. `esEstudiante` and `esMantenimiento` test each other's role name, and the model keeps that crossing as it is.
- **Validators.**
  - The plant-profile min/max range validator, which uses JavaScript truthiness.
  - The register form's password, name and no-spaces validators, and its error-message selection.
  - The profile modal's password-match check.
- **Session state.**
  - The token store, the theme and the remembered active profile, all over `localStorage`. Storage is modelled as a `map<string, string>`.
  - The two route guards and the HTTP interceptor.
- **Dialog state and display helpers.**
  - The profile list modal, the profile form, the settings modal and the profile modal. Each is modelled as a record of flags plus a transition function per handler.
  - The alert service and the alert modal.
  - The sensor endpoint URLs.

## Conventions

- **HTTP.** An HTTP call is split in two. One function says what is requested. A second function takes the outcome (`HttpResult`: a body or an error status) and returns the new state.
- **Values the model receives from outside.** Decoding JSON or a JWT payload, the system colour preference, the clock, date rendering and `environment.apiUrl` are all parameters.
- **JavaScript truthiness.**
  - A string is truthy when it is present and non-empty.
  - A number is truthy when it is present and non-zero.
- **Text.** Strings are `seq<char>`. `length` is counted in UTF-16 code units, and `\s` is the ECMAScript whitespace set.

## Model

| member | source | states |
|---|---|---|
| LocalStorage.GetItem | src/auth/services/token.service.ts:17 | `getItem` returns a value exactly when the key is stored, and then the stored value |
| LocalStorage.SetItem | src/auth/services/token.service.ts:13-14 | `setItem` stores the value under the key and changes no other key |
| LocalStorage.RemoveItem | src/auth/services/token.service.ts:24-25 | `removeItem` deletes the key and changes no other key |
| TokenService.GetToken | src/auth/services/token.service.ts:16-18 | the token is returned exactly when the token key is stored, and it is the stored text |
| TokenService.HasToken | src/auth/services/token.service.ts:16-18 | a session counts as present exactly when the stored token is non-empty, the truthiness test every caller applies |
| TokenService.SetAuthToken | src/auth/services/token.service.ts:12-15 | saving a session writes the token and the serialised user, and no other key |
| TokenService.GetUserInfo | src/auth/services/token.service.ts:19-22 | the user is parsed only when the stored text is present and non-empty |
| TokenService.ClearAuth | src/auth/services/token.service.ts:23-26 | logging out removes exactly the token key and the user key |
| TokenService.SetThenGetToken | src/auth/services/token.service.ts:12-18 | after `setAuthToken(t, u)`, `getToken()` gives `t` |
| TokenService.SetThenGetUserInfo | src/auth/services/token.service.ts:12-22 | the stored user reads back whenever parsing inverts serialising |
| TokenService.ClearThenGet | src/auth/services/token.service.ts:16-26 | after `clearAuth()` there is no token and no user |
| TokenService.NoUserKeyNoUserInfo | src/auth/services/token.service.ts:19-22 | with no user key there is no user |
| TokenService.AuthLeavesOtherKeys | src/auth/services/token.service.ts:12-26 | the theme and the active-profile keys survive both login and logout |
| RoleService.ObtenerRolUsuarioActivo | src/app/shared/services/role.service.ts:15-18 | there is a role exactly when a user is stored, and it is that user's `tipoUsuario` |
| RoleService.EsAdministrador | src/app/shared/services/role.service.ts:19-21 | holds exactly when the stored user's role is administrador |
| RoleService.EsEstudiante | src/app/shared/services/role.service.ts:22-24 | holds exactly when the stored user's role is mantenimiento: the names are crossed in the source |
| RoleService.EsMantenimiento | src/app/shared/services/role.service.ts:25-27 | holds exactly when the stored user's role is estudiante: the names are crossed in the source |
| RoleService.PuedeAccederConfiguracion | src/app/shared/services/role.service.ts:29-31 | holds exactly when the stored role is one the permission table allows for configuration |
| RoleService.PuedeControlarRiego | src/app/shared/services/role.service.ts:33-35 | holds exactly when the stored role is one the permission table allows for irrigation |
| RoleService.PuedeCrearPerfilesActivos | src/app/shared/services/role.service.ts:37-39 | holds exactly when the stored role is one the permission table allows for creating profiles |
| RoleService.PuedeAccederReportes | src/app/shared/services/role.service.ts:41-44 | holds exactly when the stored role is one the permission table allows for reports |
| RoleService.PermissionsFollowTable | src/app/shared/services/role.service.ts:29-44 | each `puede*` predicate holds exactly when the stored role is one of those that an independent table allows for that action |
| RoleService.IdentityPredicates | src/app/shared/services/role.service.ts:19-27 | `esAdministrador` holds iff the role is administrador; `esEstudiante` holds iff it is mantenimiento and `esMantenimiento` holds iff it is estudiante (crossed) |
| RoleService.OperationalPermissionsAgree | src/app/shared/services/role.service.ts:29-44 | irrigation, profile creation and reports agree for every user; configuration access implies the others |
| RoleService.NoUserNoPermissions | src/app/shared/services/role.service.ts:15-44 | with no stored user the role is null and every predicate is false |
| RoleService.StudentDenied | src/app/shared/services/role.service.ts:22-44 | a student is denied every gated action, and `esEstudiante` is false for them |
| Report.MeasureOf | src/app/shared/services/report.service.ts:123-138 | a counted row has all three of temperature, humidity and pH |
| Report.ValidData | src/app/shared/services/report.service.ts:123 | the counted rows are the input rows that have temperature, humidity and pH, each as many times as in the input and no other row |
| Report.ValidDataAppend | src/app/shared/services/report.service.ts:123 | appending a row appends it to the counted rows exactly when it is complete, so the filter keeps the input order |
| Report.ValidDataIdempotent | src/app/shared/services/report.service.ts:123 | filtering counted rows again changes nothing |
| Report.ValidDataAppendInvalid | src/app/shared/services/report.service.ts:123 | appending an incomplete row does not change the counted rows |
| Report.MeasureValues | src/app/shared/services/report.service.ts:136-138 | one value per counted row, in order: that row's reading |
| Report.NutrientValues | src/app/shared/services/report.service.ts:139-141 | one value per counted row, with a missing N, P or K counted as 0 rather than dropped |
| Report.Min | src/app/shared/services/report.service.ts:146 | `Math.min` of a non-empty list is an element of the list and at most every element |
| Report.Max | src/app/shared/services/report.service.ts:147 | `Math.max` of a non-empty list is an element of the list and at least every element |
| Report.Average | src/app/shared/services/report.service.ts:177-179 | a non-empty list's average times its length is its sum; the empty list averages 0 |
| Report.SumAtLeast | src/app/shared/services/report.service.ts:177-179 | a common lower bound, times the count, bounds the sum from below |
| Report.SumAtMost | src/app/shared/services/report.service.ts:177-179 | a common upper bound, times the count, bounds the sum from above |
| Report.MeanWithin | src/app/shared/services/report.service.ts:177-179 | bounds on every element of a non-empty list bound its average |
| Report.AverageBetweenMinMax | src/app/shared/services/report.service.ts:143-161 | min ≤ avg ≤ max for every non-empty list |
| Report.TemperatureStatus | src/app/shared/services/report.service.ts:181-187 | each label holds exactly on its band: below 15, [15, 20), [20, 25], (25, 30], above 30 |
| Report.HumidityStatus | src/app/shared/services/report.service.ts:189-195 | each label holds exactly on its band: below 30, [30, 50), [50, 70], (70, 85], above 85 |
| Report.PhStatus | src/app/shared/services/report.service.ts:197-203 | each label holds exactly on its band: below 6.0, [6.0, 6.5), [6.5, 7.5], (7.5, 8.0], above 8.0 |
| Report.NutrientStatus | src/app/shared/services/report.service.ts:205-216 | 'Deficiente' below the low threshold, 'Adecuado' between the thresholds inclusive, 'Excesivo' above (N 20/40, P 15/30, K 100/200) |
| Report.AnalyzeData | src/app/shared/services/report.service.ts:122-175 | with no counted row, the all-zero 'Sin datos' analysis. Otherwise, for each measure, min and max are attained by counted rows and bracket every reading and the average, and each status is the band of its average. Each of the six averages is the mean of that measure's values over the counted rows |
| Report.StatSummarises | src/app/shared/services/report.service.ts:143-161 | a measure's statistic over non-empty counted rows satisfies the summary property above |
| Report.NoValidRowsNoData | src/app/shared/services/report.service.ts:122-134 | if no row has all three readings, every number is 0 and every status is 'Sin datos' |
| Report.AnalysisOnlyCountsValid | src/app/shared/services/report.service.ts:123 | the analysis depends only on the counted rows; an incomplete row changes nothing |
| Report.TemperatureExample | src/app/shared/services/report.service.ts:143-148 | temperatures 10, 20 and 30 give average 20, minimum 10, maximum 30 and 'Óptimo' |
| Report.MissingNutrientCountsAsZero | src/app/shared/services/report.service.ts:139 | two rows with nitrogen 40 and none average to 20, 'Adecuado': the missing value counts as 0 |
| Report.OneSide | src/app/shared/services/report.service.ts:384-396 | a measure's rule pair yields the low-side entry when the low test holds, else the high-side entry when the high test holds, and never both |
| Report.IfDeficient | src/app/shared/services/report.service.ts:429-451 | a nutrient rule yields its entry exactly when the status is 'Deficiente' |
| Report.RecommendationKinds | src/app/shared/services/report.service.ts:381-455 | a rule appears exactly when it fires; entries are in rule order (temperature, humidity, pH, N, P, K); at most 6 |
| Report.RecsOf | src/app/shared/services/report.service.ts:386-450 | each rule maps to its fixed title, description and priority, position by position |
| Report.GenerateRecommendations | src/app/shared/services/report.service.ts:381-455 | the list is the fixed text of each fired rule in rule order, at most 6 entries |
| Report.FiredRulesRecommended | src/app/shared/services/report.service.ts:381-455 | every rule that fires contributes its recommendation |
| Report.RecommendedRulesFired | src/app/shared/services/report.service.ts:381-455 | every recommendation comes from a rule that fires |
| Report.AtMostOnePerMeasure | src/app/shared/services/report.service.ts:384-427 | temperature, humidity and pH each contribute at most one entry |
| Report.NoDataRecommendations | src/app/shared/services/report.service.ts:384-427 | the no-data analysis yields exactly the three low-side rules |
| Report.FiredKindsInOrder | src/app/shared/services/report.service.ts:381-455 | two fired rules of different groups appear at positions in group order |
| Report.FiredRulesInOrder | src/app/shared/services/report.service.ts:381-455 | the same ordering, stated on the generated recommendations |
| Report.OverallStatus | src/app/shared/services/report.service.ts:274-284 | the overall status is one of 'Bueno', 'Requiere Atención' and 'Aceptable' |
| Report.TemperatureVery | src/app/shared/services/report.service.ts:181-187 | a temperature label contains 'Muy' exactly when the average is below 15 or above 30 |
| Report.HumidityVery | src/app/shared/services/report.service.ts:189-195 | a humidity label contains 'Muy' exactly when the average is below 30 or above 85 |
| Report.PhVery | src/app/shared/services/report.service.ts:197-203 | a pH label contains 'Muy' exactly when the average is below 6.0 or above 8.0 |
| Report.OverallByAverages | src/app/shared/services/report.service.ts:274-284 | 'Bueno' iff some measure is optimal; 'Requiere Atención' iff none is optimal and some is extreme; 'Aceptable' iff neither |
| Report.AnalysisOverall | src/app/shared/services/report.service.ts:274-284 | for real data, the same three equivalences on the measures' averages |
| Report.OverallNoData | src/app/shared/services/report.service.ts:274-284 | the all-'Sin datos' analysis is 'Aceptable' |
| Report.OptimalMasksExtreme | src/app/shared/services/report.service.ts:281-282 | a very cold reading with optimal humidity is still 'Bueno': the optimal test comes first |
| Report.TableRows | src/app/shared/services/report.service.ts:348 | the table holds the first min(n, 20) rows, in order |
| Report.GenerateReport | src/app/shared/services/report.service.ts:77-80 | the report counts every input row and tabulates the first min(n, 20) of them |
| Report.EmptyReport | src/app/shared/services/report.service.ts:77-80 | data with no complete row gives the no-data analysis, 'Aceptable' and the three low-side recommendations |
| PerfilesPlantas.PerfilUrl | src/app/perfilesPlantas/perfiles-plantas.service.ts:92-94 | a single-profile URL lies under the profiles endpoint |
| PerfilesPlantas.PerfilUrlReadsBack | src/app/perfilesPlantas/perfiles-plantas.service.ts:92-94 | the id written after the last '/' of a profile URL parses back to the same id |
| PerfilesPlantas.NaNUrl | src/app/perfilesPlantas/perfiles-plantas.service.ts:130-132 | text that `parseInt` cannot read requests the '/NaN' URL, which names no profile id |
| PerfilesPlantas.SeleccionarPerfilActivo | src/app/perfilesPlantas/perfiles-plantas.service.ts:116-123 | selecting stores the id as decimal text under 'perfil_activo_id'; deselecting removes the key; no other key changes |
| PerfilesPlantas.SelectThenClear | src/app/perfilesPlantas/perfiles-plantas.service.ts:116-123 | selecting then deselecting leaves no active profile and no stored key |
| PerfilesPlantas.CargarPerfiles | src/app/perfilesPlantas/perfiles-plantas.service.ts:64-76 | a request is made iff there is a token; without one the list is emptied |
| PerfilesPlantas.InactiveOnlyForAdmin | src/app/perfilesPlantas/perfiles-plantas.service.ts:73-76 | the URL asks for inactive profiles exactly when the user is an administrator |
| PerfilesPlantas.OnPerfilesCargados | src/app/perfilesPlantas/perfiles-plantas.service.ts:78-89 | a loaded list replaces the list; an error empties it, and only a 401 also clears the session |
| PerfilesPlantas.FailedLoadKeepsSelection | src/app/perfilesPlantas/perfiles-plantas.service.ts:81-88 | a failed load keeps the remembered profile; after a 401 there is no token |
| PerfilesPlantas.CargarPerfilActivoGuardado | src/app/perfilesPlantas/perfiles-plantas.service.ts:125-132 | a fetch happens iff there is a token and a non-empty remembered id; it asks for `parseInt` of that id |
| PerfilesPlantas.SelectionSurvivesReload | src/app/perfilesPlantas/perfiles-plantas.service.ts:116-132 | a selected profile's id is the one fetched on the next load |
| PerfilesPlantas.OnPerfilActivoCargado | src/app/perfilesPlantas/perfiles-plantas.service.ts:132-139 | a fetched profile becomes active; an error clears it and forgets the id |
| PerfilesPlantas.ReloadOutcome | src/app/perfilesPlantas/perfiles-plantas.service.ts:125-139 | a successful fetch makes the fetched profile active and keeps the remembered id for the next load; a failed one forgets it, so the next load fetches nothing |
| FormPerfil.ErrorKeyInjective | src/app/perfilesPlantas/form-perfil.component.ts:86-119 | the six parameters have six distinct error keys |
| FormPerfil.ErroresDe | src/app/perfilesPlantas/form-perfil.component.ts:79-123 | the errors for a list of parameters are keyed exactly by those whose bounds are both truthy with min > max, each with its fixed message |
| FormPerfil.Errores | src/app/perfilesPlantas/form-perfil.component.ts:79-123 | the same, over all six parameters |
| FormPerfil.ValidadorRangos | src/app/perfilesPlantas/form-perfil.component.ts:79-123 | null iff no pair offends; otherwise the error object holds exactly the offending pairs |
| FormPerfil.ErrorsAreLocal | src/app/perfilesPlantas/form-perfil.component.ts:83-120 | changing one pair's bounds does not change whether any other pair reports an error |
| FormPerfil.EqualBoundsAccepted | src/app/perfilesPlantas/form-perfil.component.ts:85 | equal bounds never offend, because the test is strict |
| FormPerfil.FalsyBoundSuppresses | src/app/perfilesPlantas/form-perfil.component.ts:83-120 | a bound of 0 or an empty bound switches the check off (min 5, max 0 passes) |
| FormPerfil.OnPerfilParaEditarChange | src/app/perfilesPlantas/form-perfil.component.ts:30-39 | after the input changes, `esEdicion` holds iff there is a profile to edit |
| FormPerfil.ObtenerTituloModal | src/app/perfilesPlantas/form-perfil.component.ts:212-217 | 'Editando: ' + name while editing a profile, else 'Crear Perfil de Planta' |
| FormPerfil.TituloEditando | src/app/perfilesPlantas/form-perfil.component.ts:212-217 | in a reachable state, the title starts with 'Editando: ' iff a profile is being edited |
| FormPerfil.Valor | src/app/perfilesPlantas/form-perfil.component.ts:221 | the name and the id read back from the edited profile |
| FormPerfil.ObtenerPlaceholderConValor | src/app/perfilesPlantas/form-perfil.component.ts:219-227 | the placeholder always comes first. ' (actual: v)' is appended exactly when editing a profile whose field is neither null nor undefined |
| FormPerfil.OnSubmit | src/app/perfilesPlantas/form-perfil.component.ts:157-168 | a request goes out iff every control is valid and no min/max pair is crossed, since the range validator is the form's group validator. An invalid form only marks the controls touched. A valid one sets `guardando` and updates the edited profile, or creates a new one when not editing |
| FormPerfil.CrossedRangeBlocksSave | src/app/perfilesPlantas/form-perfil.component.ts:157-161 | a pair with both bounds set and min > max keeps the form invalid, so nothing reaches the service and the state is unchanged |
| FormPerfil.ConsistentSubmitSound | src/app/perfilesPlantas/form-perfil.component.ts:166-168 | from a reachable state, a submit never dereferences a missing profile, whatever the form holds |
| FormPerfil.MensajeError | src/app/perfilesPlantas/form-perfil.component.ts:183-188 | the alert text is never empty. It is the server's message, else the error's own, else the default |
| FormPerfil.OnSaveResult | src/app/perfilesPlantas/form-perfil.component.ts:170-192 | on success: emit the profile, close, reload. On failure: only the alert. `guardando` ends either way |
| FormPerfil.SaveRoundTrip | src/app/perfilesPlantas/form-perfil.component.ts:157-192 | with valid controls and no crossed pair, a submit then its outcome leaves the state as it was except that `guardando` is off; a failure does not close the form and a resubmit sends the same request |
| FormPerfil.PlaceholderFollowsEdit | src/app/perfilesPlantas/form-perfil.component.ts:219-227 | while a profile is edited its name is shown in the name placeholder; with no profile no placeholder has a suffix |
| ModalPerfiles.OnShowChange | src/app/perfilesPlantas/modal-perfiles.component.ts:51-59 | opening sets `cargandoPerfiles`, empties the list and triggers both loads; other changes do nothing |
| ModalPerfiles.OnPerfilesEmitidos | src/app/perfilesPlantas/modal-perfiles.component.ts:38-41 | a published list replaces the list and ends loading |
| ModalPerfiles.OnPerfilActivoEmitido | src/app/perfilesPlantas/modal-perfiles.component.ts:43-46 | a published active profile becomes the component's copy and nothing else changes |
| ModalPerfiles.OpenThenLoaded | src/app/perfilesPlantas/modal-perfiles.component.ts:36-59 | opening the modal starts loading, and the list that then arrives is shown with loading over |
| ModalPerfiles.OpenWithoutTokenSettles | src/app/perfilesPlantas/perfiles-plantas.service.ts:64-69 | opening without a token makes no request; the service publishes the empty list at once, so loading ends on an empty list within the same change |
| ModalPerfiles.CrearNuevoPerfil | src/app/perfilesPlantas/modal-perfiles.component.ts:69-72 | opens the form with no profile; nothing else changes |
| ModalPerfiles.EditarPerfil | src/app/perfilesPlantas/modal-perfiles.component.ts:85-89 | opens the form on the given profile; nothing else changes |
| ModalPerfiles.CerrarFormModal | src/app/perfilesPlantas/modal-perfiles.component.ts:69-89 | closes the form and forgets the profile; nothing else changes |
| ModalPerfiles.FormOpenClose | src/app/perfilesPlantas/modal-perfiles.component.ts:69-89 | opening then closing the form returns to the closed state |
| ModalPerfiles.SeleccionarPerfil | src/app/perfilesPlantas/modal-perfiles.component.ts:74-83 | an inactive profile changes nothing and emits nothing. An active one becomes the service's active profile and, through the subscription, the component's copy; it is emitted and the modal closes |
| ModalPerfiles.SelectionIsActive | src/app/perfilesPlantas/modal-perfiles.component.ts:74-83 | selecting through the modal never makes an inactive profile active |
| ModalPerfiles.SelectThenActiveId | src/app/perfilesPlantas/modal-perfiles.component.ts:74-83 | after selecting an active profile with a non-zero id the modal reports that id and the stored key holds it as text; an inactive choice changes nothing |
| ModalPerfiles.EliminarPerfil | src/app/perfilesPlantas/modal-perfiles.component.ts:91-95 | opens the delete dialog on the profile; nothing else changes |
| ModalPerfiles.CerrarModalEliminar | src/app/perfilesPlantas/modal-perfiles.component.ts:120-123 | closes the delete dialog and forgets the profile; nothing else changes |
| ModalPerfiles.ReactivarPerfil | src/app/perfilesPlantas/modal-perfiles.component.ts:144-148 | opens the reactivate dialog on the profile; nothing else changes |
| ModalPerfiles.CerrarModalReactivar | src/app/perfilesPlantas/modal-perfiles.component.ts:151-154 | closes the reactivate dialog and forgets the profile; nothing else changes |
| ModalPerfiles.DialogsOpenClose | src/app/perfilesPlantas/modal-perfiles.component.ts:91-123 | open then close is the closed state for both dialogs, and neither touches the other |
| ModalPerfiles.ConfirmarEliminacion | src/app/perfilesPlantas/modal-perfiles.component.ts:97-101 | a deactivation of the pending profile's id is requested iff a profile is pending |
| ModalPerfiles.OnDesactivado | src/app/perfilesPlantas/modal-perfiles.component.ts:102-116 | on success: reload and close the dialog; when the ids match (`?.id ===`) the service and, through the subscription, the component's copy are deselected. On failure: only the alert |
| ModalPerfiles.DeactivationDeselectsIff | src/app/perfilesPlantas/modal-perfiles.component.ts:106-109 | after deactivating, no profile is active iff none was or the active one was deactivated; another active profile keeps its stored id; the component's copy stays equal to the service's |
| ModalPerfiles.DeleteRoundTrip | src/app/perfilesPlantas/modal-perfiles.component.ts:91-116 | deleting the active profile requests its id; success leaves no active id in the modal or the service, no stored key, the dialog closed and a reload |
| ModalPerfiles.ConfirmarReactivacion | src/app/perfilesPlantas/modal-perfiles.component.ts:156-158 | a reactivation is requested iff a profile is pending |
| ModalPerfiles.OnReactivado | src/app/perfilesPlantas/modal-perfiles.component.ts:159-168 | on success: reload and close the dialog. On failure: only the alert |
| ModalPerfiles.ReactivateRoundTrip | src/app/perfilesPlantas/modal-perfiles.component.ts:144-168 | reactivating requests the pending id; success closes the dialog and reloads, failure leaves the dialog open |
| ModalPerfiles.PerfilActivoId | src/app/perfilesPlantas/modal-perfiles.component.ts:125-127 | null when no profile is active and also when its id is 0 (`\|\|`); otherwise the id |
| ModalPerfiles.HandlersKeepMirror | src/app/perfilesPlantas/modal-perfiles.component.ts:43-46 | every handler, and a reloaded active profile, keeps the component's copy equal to the service's active profile |
| Register.PasswordValidator | src/auth/register/register.component.ts:24-47 | null for an empty value. A non-empty value passes iff it has an upper-case letter, a lower-case letter, a digit and a listed special character, has no whitespace and has length ≥ 8. An error carries those six flags |
| Register.StrongPasswordExtends | src/auth/register/register.component.ts:28-35 | appending a non-blank character to a strong password keeps it strong |
| Register.ShortExampleClasses | src/auth/register/register.component.ts:28-33 | 'Abcde1!' has every character class, no whitespace and length 7 |
| Register.ShortPasswordRejected | src/auth/register/register.component.ts:33-46 | 'Abcde1!' is rejected on length alone |
| Register.NameValidator | src/auth/register/register.component.ts:49-59 | null for a blank value. Otherwise the trimmed name passes iff it uses only letters, the listed accented letters and whitespace and has 2..50 units. An error carries both flags |
| Register.NamePaddingIgnored | src/auth/register/register.component.ts:50 | any white space before and after a name leaves the verdict unchanged |
| Register.BlankNamePasses | src/auth/register/register.component.ts:50-51 | an all-whitespace name raises no name error |
| Register.EmailErrors | src/auth/register/register.component.ts:65-74 | `required` iff empty, the format error iff non-empty and malformed, `maxlength` iff more than 254 UTF-16 units, `hasSpaces` iff non-empty with whitespace |
| Register.BlankInEmailFlagged | src/auth/register/register.component.ts:70-73 | any whitespace character anywhere in the address sets `hasSpaces` |
| Register.EmailSpacesMessage | src/auth/register/register.component.ts:123-130 | a well-formed short address shows the spaces message exactly when it contains whitespace, and nothing otherwise |
| Register.EmailHasSpaces | src/auth/register/register.component.ts:70-73 | `hasSpaces` iff the value is non-empty and contains whitespace |
| Register.FirstMessage | src/auth/register/register.component.ts:127-141 | messages are picked in the order required, email, hasSpaces, maxlength; then '' for a password-strength error; then, for a name error, the letters message when letters fail, the length message when only length fails, and '' otherwise |
| Register.GetFieldError | src/auth/register/register.component.ts:123-144 | '' unless the field has errors and is touched, dirty or holds a truthy value |
| Register.IsFieldInvalid | src/auth/register/register.component.ts:146-149 | a field that is not invalid shows no message; an invalid one has some error set |
| Register.MessageImpliesInvalid | src/auth/register/register.component.ts:123-149 | a field showing a message is one `isFieldInvalid` reports |
| Register.WeakPasswordHasNoMessage | src/auth/register/register.component.ts:132-135 | a weak password is flagged invalid but gets no text message |
| Register.NameCharactersBeforeLength | src/auth/register/register.component.ts:137-140 | a name failing both checks shows the letters message |
| Register.PasswordErrors | src/auth/register/register.component.ts:75-78 | `required` iff the password is empty; the strength error is the validator's |
| Register.PasswordMessages | src/auth/register/register.component.ts:123-144 | the password field only ever shows '' or 'password es requerido' |
| Register.NameErrors | src/auth/register/register.component.ts:79-86 | `required` iff the name is empty; the name error is the validator's |
| Register.BlankNameAccepted | src/auth/register/register.component.ts:49-51 | a name of three spaces passes both `required` and the name validator |
| Register.RegisterErrorMessage | src/auth/register/register.component.ts:99-106 | 409 and 404 have fixed texts; otherwise the server's message, else 'Error en el registro' |
| Register.DuplicateMessageIff | src/auth/register/register.component.ts:99-106 | the duplicate-address text appears exactly for a 409, or when the server sends that same text with a status other than 404 |
| ConfiguracionModal.IndexOf | src/app/configuracion/configuracion-modal.component.ts:178 | `indexOf` is the first position holding the value, or -1 exactly when it is absent |
| ConfiguracionModal.GetNextUserType | src/app/configuracion/configuracion-modal.component.ts:176-181 | the next role is always one of the three roles |
| ConfiguracionModal.NextUserTypeCycle | src/app/configuracion/configuracion-modal.component.ts:176-181 | administrador → estudiante → mantenimiento → administrador |
| ConfiguracionModal.NextUserTypeThrice | src/app/configuracion/configuracion-modal.component.ts:176-181 | three steps are the identity on known roles |
| ConfiguracionModal.NextOfUnknown | src/app/configuracion/configuracion-modal.component.ts:178-180 | an unknown role is followed by 'administrador' |
| ConfiguracionModal.GetTipoUsuarioDisplay | src/app/configuracion/configuracion-modal.component.ts:118-129 | unknown roles are shown unchanged |
| ConfiguracionModal.GetTipoUsuarioClass | src/app/configuracion/configuracion-modal.component.ts:131-142 | unknown roles get no class |
| ConfiguracionModal.KnownRoleIff | src/app/configuracion/configuracion-modal.component.ts:118-142 | a role has a class, and has a display name different from itself, exactly when it is known |
| ConfiguracionModal.GetUserTypeOptions | src/app/configuracion/configuracion-modal.component.ts:168-174 | the option values are the three roles in cycle order |
| ConfiguracionModal.OptionsAgreeWithDisplay | src/app/configuracion/configuracion-modal.component.ts:168-181 | each option's label is the table's display name for its value, and the cycle visits options in order |
| ConfiguracionModal.GetStatusClass | src/app/configuracion/configuracion-modal.component.ts:144-146 | 'status-active' exactly for an active user |
| ConfiguracionModal.GetStatusText | src/app/configuracion/configuracion-modal.component.ts:148-150 | 'Activo' exactly for an active user |
| ConfiguracionModal.GetActionText | src/app/configuracion/configuracion-modal.component.ts:152-154 | 'Habilitar' exactly for an inactive user |
| ConfiguracionModal.GetActionClass | src/app/configuracion/configuracion-modal.component.ts:156-158 | 'btn-enable' exactly for an inactive user |
| ConfiguracionModal.StatusHelpersOpposite | src/app/configuracion/configuracion-modal.component.ts:144-158 | each helper separates the two states, and the offered action names the opposite of the current status |
| ConfiguracionModal.FindIndex | src/app/configuracion/configuracion-modal.component.ts:64 | `findIndex` gives the first user with the id, or none exactly when no user has it |
| ConfiguracionModal.ReplaceUser | src/app/configuracion/configuracion-modal.component.ts:64-67 | the first user with the id is replaced and every other entry kept; without a match the list is unchanged |
| ConfiguracionModal.ReplaceOnlyFirst | src/app/configuracion/configuracion-modal.component.ts:64-67 | a later user with a duplicate id keeps its old entry |
| ConfiguracionModal.LoadUsers | src/app/configuracion/configuracion-modal.component.ts:34-36 | loading starts, the error is cleared and the list is kept |
| ConfiguracionModal.MessageOr | src/app/configuracion/configuracion-modal.component.ts:45 | `message \|\| default`: the message when non-empty, else the default |
| ConfiguracionModal.OnUsersLoaded | src/app/configuracion/configuracion-modal.component.ts:41-54 | success with data replaces the list. A refusal sets the message or its default. A transport error sets the connection message. Loading ends in every case |
| ConfiguracionModal.OnUserUpdated | src/app/configuracion/configuracion-modal.component.ts:57-105 | success with data replaces the user by id. A refusal or transport error sets the operation's message and keeps the list |
| ConfiguracionModal.UpdateKeepsOthers | src/app/configuracion/configuracion-modal.component.ts:64-67 | a successful update keeps the length and every user with another id |
| ConfiguracionModal.LoadRoundTrip | src/app/configuracion/configuracion-modal.component.ts:34-55 | loading then a successful answer shows exactly the answered list with no error; a refusal or transport error keeps the old list with its message |
| ConfiguracionModal.TypeChangeRoundTrip | src/app/configuracion/configuracion-modal.component.ts:82-105 | changing a user's type and receiving the updated user puts the new type on that row only; choosing the current type requests nothing |
| ConfiguracionModal.OnUserTypeChange | src/app/configuracion/configuracion-modal.component.ts:183-189 | an update `(id, newType)` is requested iff the type actually changes |
| PerfilModal.Init | src/app/shared/components/perfil-modal/perfil-modal.component.ts:27-48 | the edit form starts with the user's details when there is a user, blank otherwise |
| PerfilModal.MatchingPasswordsPass | src/app/shared/components/perfil-modal/perfil-modal.component.ts:50-55 | a reset form and any form whose confirmation repeats the new password pass; a missing confirmation fails |
| PerfilModal.InitThenEdit | src/app/shared/components/perfil-modal/perfil-modal.component.ts:27-73 | opening the edit view after construction shows the user's details; with no user no profile request is sent |
| PerfilModal.SwitchView | src/app/shared/components/perfil-modal/perfil-modal.component.ts:57-66 | the view becomes `v`; only the edit view, with a user, reloads the form |
| PerfilModal.OnSubmitProfile | src/app/shared/components/perfil-modal/perfil-modal.component.ts:68-73 | a request with the user's id and the form's value is sent iff the form is valid and there is a user |
| PerfilModal.Merge | src/app/shared/components/perfil-modal/perfil-modal.component.ts:77 | the spread takes nombre, apellido and email from the form and keeps every other field |
| PerfilModal.OnProfileUpdated | src/app/shared/components/perfil-modal/perfil-modal.component.ts:74-86 | loading ends. Success merges the details and shows the profile view. Anything else keeps the user and the view |
| PerfilModal.ProfileRoundTrip | src/app/shared/components/perfil-modal/perfil-modal.component.ts:68-80 | a submitted and accepted edit shows the submitted details on the same user |
| PerfilModal.EditAfterUpdate | src/app/shared/components/perfil-modal/perfil-modal.component.ts:57-86 | after an accepted update, reopening the edit view shows the submitted details |
| PerfilModal.OnSubmitPassword | src/app/shared/components/perfil-modal/perfil-modal.component.ts:91-96 | a change request is sent iff the controls are valid, the passwords match and there is a user |
| PerfilModal.OnPasswordChanged | src/app/shared/components/perfil-modal/perfil-modal.component.ts:97-110 | success resets the form to nulls and shows the profile view; loading ends in every case |
| PerfilModal.PasswordRoundTrip | src/app/shared/components/perfil-modal/perfil-modal.component.ts:91-110 | an accepted change resets the form, returns to the profile view and keeps the user; after a failure a resubmit sends the same request |
| PerfilModal.MismatchNeverSent | src/app/shared/components/perfil-modal/perfil-modal.component.ts:50-55 | a confirmation that differs from the new password never reaches the server |
| PerfilModal.TipoUsuarioDisplay | src/app/shared/components/perfil-modal/perfil-modal.component.ts:122-123 | an absent or empty role reads 'No especificado' |
| PerfilModal.DisplayAgreesWithSettings | src/app/shared/components/perfil-modal/perfil-modal.component.ts:122-134 | for a non-empty role the profile modal shows what the settings table shows, unknown roles unchanged |
| PerfilModal.FormatDate | src/app/shared/components/perfil-modal/perfil-modal.component.ts:136-143 | an absent or empty date reads 'No disponible'; otherwise the rendered date |
| PerfilModal.MissingDateIff | src/app/shared/components/perfil-modal/perfil-modal.component.ts:136-143 | when the renderer never produces 'No disponible', that text shows exactly for a missing or empty date |
| Theme.ApplyTheme | src/app/core/services/theme.service.ts:52-62 | the body has the class of the chosen theme and not the other; other classes are untouched |
| Theme.SaveTheme | src/app/core/services/theme.service.ts:48-50 | stores 'dark' or 'light' under 'smiivern-theme' and changes no other key |
| Theme.SetTheme | src/app/core/services/theme.service.ts:30-34 | publishes, persists and applies the same flag |
| Theme.ToggleTheme | src/app/core/services/theme.service.ts:25-28 | the flag flips |
| Theme.LoadSavedTheme | src/app/core/services/theme.service.ts:36-46 | a non-empty saved value decides, and only 'dark' is dark; with none the system preference decides |
| Theme.Init | src/app/core/services/theme.service.ts:14-19 | start-up loads the flag and applies it without writing storage |
| Theme.ThemeOperationsKeepBody | src/app/core/services/theme.service.ts:52-62 | after start-up, set or toggle, exactly one theme class is on the body: the one the flag names |
| Theme.SetThenReload | src/app/core/services/theme.service.ts:30-50 | a theme that was set is the one the next start loads, whatever the system preference |
| Theme.ToggleTwice | src/app/core/services/theme.service.ts:25-34 | toggling twice restores the flag and the body's classes, and leaves the original theme stored |
| Theme.UnknownStoredIsLight | src/app/core/services/theme.service.ts:38-40 | any non-empty stored value other than 'dark' loads the light theme |
| Guards.AuthCanActivate | src/auth/guards/auth.guard.ts:14-42 | passes iff there is a token whose `exp` is truthy and later than the current second. A rejected token is cleared with the user; every rejection goes to '/login'; with no token storage is unchanged |
| Guards.NoAuthCanActivate | src/auth/guards/no-auth.guard.ts:14-23 | passes iff there is no token and then does not navigate. With a token it goes to '/dashboard'. Storage is never changed |
| Guards.GuardsExclusive | src/auth/guards/auth.guard.ts:15-24 | no storage passes both guards |
| Guards.RejectionLogsOut | src/auth/guards/auth.guard.ts:26-39 | after a rejection the login page is reachable and the guard keeps rejecting |
| Guards.ExpiryMonotone | src/auth/guards/auth.guard.ts:21-24 | a token that passes now passes earlier too, and fails once the clock reaches its `exp` |
| Guards.MissingExpLogsOut | src/auth/guards/auth.guard.ts:23-35 | a payload without `exp`, or one that fails to decode, logs out and redirects |
| Interceptor.Intercept | src/auth/interceptors/auth.interceptor.ts:11-25 | with a token and a URL containing 'localhost:3000', Authorization becomes 'Bearer ' + token; otherwise the request passes unchanged |
| Interceptor.AuthorizedIff | src/auth/interceptors/auth.interceptor.ts:15-21 | a request without the header gains it iff a token is stored and the URL matches |
| Interceptor.OtherHeadersKept | src/auth/interceptors/auth.interceptor.ts:16-20 | no other header changes |
| Interceptor.InterceptIdempotent | src/auth/interceptors/auth.interceptor.ts:15-21 | intercepting twice is the same as once |
| Interceptor.NoTokenAfterLogout | src/auth/interceptors/auth.interceptor.ts:12-24 | after logout no request is altered |
| Interceptor.SensorApiAuthorized | src/auth/interceptors/auth.interceptor.ts:15 | the match is a substring test, so any URL on 'http://localhost:3000' qualifies |
| Alerts.OrDefault | src/app/shared/services/alert.service.ts:17 | `text \|\| fallback` |
| Alerts.Show | src/app/shared/services/alert.service.ts:12-50 | the four single-button alerts differ only in type. The confirm label defaults to 'Aceptar'; there is no cancel button |
| Alerts.ShowConfirm | src/app/shared/services/alert.service.ts:52-61 | an info alert with both buttons, labelled 'Confirmar' and 'Cancelar' unless given |
| Alerts.Close | src/app/shared/services/alert.service.ts:75-77 | nothing is shown |
| Alerts.PublishedAlertsWellFormed | src/app/shared/services/alert.service.ts:12-61 | every published alert has a non-empty confirm label, and a cancel button exactly when it asks for confirmation |
| Alerts.IconClassesDistinct | src/app/shared/components/alert-modal/alert-modal.component.ts:46-54 | four distinct classes; error and warning share the triangle glyph; the default data shows the info icon |
| Alerts.EveryButtonCloses | src/app/shared/components/alert-modal/alert-modal.component.ts:32-44 | each button emits at most one choice and then exactly one close, last |
| Sensors.LatestUrl | src/app/shared/services/sensors.service.ts:38-43 | the device filter is added iff the id is non-empty |
| Sensors.HistoryUrl | src/app/shared/services/sensors.service.ts:49-52 | '&limit=' is added iff the limit is non-zero |
| Sensors.HistoryLimitReadsBack | src/app/shared/services/sensors.service.ts:50-52 | the written limit parses back to the same number; a zero limit is the same as none |
| Sensors.PollUrl | src/app/shared/services/sensors.service.ts:60-63 | the poll asks for the latest reading of device 'esp32-001' on the API host |
| Sensors.RefreshUrl | src/app/shared/services/sensors.service.ts:78-79 | a missing device means the polled device 'esp32-001'; a given one is used as is |
| Sensors.EmptyRefreshIsUnfiltered | src/app/shared/services/sensors.service.ts:39-41 | an empty device id asks for any device's latest reading, unlike the poll |
| Sensors.OnLatestData | src/app/shared/services/sensors.service.ts:79-85 | a reading replaces the published one; an error keeps it |
| Sensors.OnPollResult | src/app/shared/services/sensors.service.ts:60-72 | a tick's reading is published while polling runs; an error stops polling and keeps the reading; once stopped nothing changes |
| Sensors.OnRefreshResult | src/app/shared/services/sensors.service.ts:78-87 | a manual refresh publishes like a poll but never starts or stops polling |
| Sensors.StoppedStaysStopped | src/app/shared/services/sensors.service.ts:62-72 | a stopped pipeline ignores every later tick |
| Sensors.SuccessfulPollsPublishLast | src/app/shared/services/sensors.service.ts:62-68 | while every tick succeeds, polling continues and the newest reading is published |
| Sensors.FirstErrorEndsPolling | src/app/shared/services/sensors.service.ts:62-72 | one failed tick ends polling for good; the reading published before it stays |
| Sensors.SensorRequestsAuthorized | src/app/shared/services/sensors.service.ts:25-52 | every sensor URL is on the API host, so a logged-in session's requests carry the token |
| Strings.ContainsIff | src/app/shared/services/report.service.ts:282 | `includes` finds an occurrence exactly when one exists |
| Strings.Trim | src/auth/register/register.component.ts:50 | the result is a slice of the value with only white space before and after it; it is empty exactly for an all-whitespace value, and otherwise starts and ends with a non-whitespace character |
| Strings.IntToString | src/app/perfilesPlantas/perfiles-plantas.service.ts:119 | `toString` of an integer is a minus sign for negatives followed by decimal digits only |
| Strings.ParseInt | src/app/perfilesPlantas/perfiles-plantas.service.ts:130-132 | text with no digit parses to nothing (NaN) |
| Strings.ParseIntToString | src/app/perfilesPlantas/perfiles-plantas.service.ts:119-132 | `parseInt` reads back what `toString` writes |

## Left out

- PDF layout: jsPDF and autoTable calls, headers, footers, page breaks, Y coordinates and the file name. The report's content is modelled; its rendering is not.
- Number parsing: `parseFloat`, NaN filtering, `toFixed` and IEEE rounding. Readings arrive already parsed as optional exact reals, and averages are exact.
- Report.AnalyzeData: a present reading that `parseFloat` cannot read, the empty string included, passes the `!= null` test, so its row is counted. The source then drops only that value from its own measure's list. If that list ends up empty, the average is 0, the minimum `Infinity` and the maximum `-Infinity`. The model reads such text as an absent field, so the row is not counted, and it does not promise these values.
- Strings.IntToString: JavaScript writes numbers of magnitude 10^21 or more in exponent form, and this function writes plain digits. Profile ids and history limits are therefore assumed below 10^21, and so are the read-back lemmas built on it: PerfilesPlantas.SelectionSurvivesReload, PerfilesPlantas.PerfilUrlReadsBack, Sensors.HistoryLimitReadsBack and Strings.ParseIntToString.
- Sensors.HistoryUrl: the limit is an integer. A fractional limit, which TypeScript's `number` allows and which would be written with a decimal point, is not modelled.
- Dates and locale: `toLocaleDateString`, `Date.now` as anything but a millisecond parameter, and the settings modal's `formatDate`. Rendering is a parameter.
- Decoding: the JWT payload (`atob`, `JSON.parse`) and the stored user's JSON are function parameters.
- Angular's built-in validators (`required`, `email`, `maxLength`, `min`, `max`) are modelled as flags. So are the form-group machinery and `patchValue` of the profile form (`cargarDatosEnFormulario`, `resetearFormulario`).
- HTTP, RxJS, subscriptions and `takeUntil`. Each call is split into its request and its outcome. The 30-second `timer` is reduced to the sequence of its ticks' outcomes. The first failed tick errors the stream and ends polling, and no restart is modelled because the source has none.
- Interceptor.Intercept: headers are a map with case-sensitive names. Angular's `setHeaders` treats names case-insensitively, so a request that already carries 'authorization' in another case is not modelled as Angular would merge it.
- Alerts.GetIconClass, Alerts.OnConfirm, Alerts.OnCancel, Alerts.OnClose, PerfilModal.PasswordMismatch and Sensors.RunPolls only compute and carry no contract of their own. Alerts.IconClassesDistinct, Alerts.EveryButtonCloses, PerfilModal.MatchingPasswordsPass and the polling lemmas state their properties.
- The `showConfirm` promise and its `setTimeout` subscription. Only the alert it publishes is modelled.
- PerfilModal.OnProfileUpdated: if the user input were cleared while the request was in flight, the source would build a partial user from the form alone. The model keeps no user in that case.
- `environment.apiUrl` is a parameter; `src/environments/environment.ts` is not part of this model.
- The users, auth and PWA services, the login and dashboard components, routing, Angular modules and plain interfaces. These are endpoint wrappers, rendering or demo data with no decisions to model.
- The profile service's `crear`, `actualizar`, `eliminar`, `reactivar` and `obtenerEstadisticas` are bare endpoint calls. Only the requests the components issue through them are modelled.
- Alerts.AlertType: the modal's `type` is the closed union the interface declares, so the `default` branch of `getIconClass` is unreachable in the model. It would give the info icon.
