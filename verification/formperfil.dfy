/**
 * The plant-profile form: the cross-field range validator, the edit flag and
 * the texts derived from the profile being edited, and the submit guard.
 * Form values are numbers, `None` standing for an empty control; the
 * built-in `Validators` are summarised by one validity flag.
 */
module FormPerfil {
  import opened Common
  import opened Strings
  import opened PerfilesPlantas

  /** The six parameters the validator compares as min/max pairs. */
  datatype Parametro = Temperatura | Humedad | Ph | Nitrogeno | Fosforo | Potasio

  datatype Rango = Rango(min: Option<real>, max: Option<real>)

  datatype Rangos = Rangos(temperatura: Rango, humedad: Rango, ph: Rango, nitrogeno: Rango, fosforo: Rango, potasio: Rango)

  function RangoOf(rs: Rangos, p: Parametro): Rango {
    match p
    case Temperatura => rs.temperatura
    case Humedad => rs.humedad
    case Ph => rs.ph
    case Nitrogeno => rs.nitrogeno
    case Fosforo => rs.fosforo
    case Potasio => rs.potasio
  }

  /** `rs` with the pair of `p` replaced. */
  function WithRango(rs: Rangos, p: Parametro, r: Rango): (r': Rangos)
    ensures RangoOf(r', p) == r
    ensures forall q :: q != p ==> RangoOf(r', q) == RangoOf(rs, q)
  {
    match p
    case Temperatura => rs.(temperatura := r)
    case Humedad => rs.(humedad := r)
    case Ph => rs.(ph := r)
    case Nitrogeno => rs.(nitrogeno := r)
    case Fosforo => rs.(fosforo := r)
    case Potasio => rs.(potasio := r)
  }

  function ErrorKey(p: Parametro): string {
    match p
    case Temperatura => "temperaturaRange"
    case Humedad => "humedadRange"
    case Ph => "phRange"
    case Nitrogeno => "nitrogenoRange"
    case Fosforo => "fosforoRange"
    case Potasio => "potasioRange"
  }

  function ErrorMessage(p: Parametro): string {
    match p
    case Temperatura => "La temperatura mínima no puede ser mayor que la máxima"
    case Humedad => "La humedad mínima no puede ser mayor que la máxima"
    case Ph => "El pH mínimo no puede ser mayor que el máximo"
    case Nitrogeno => "El nitrógeno mínimo no puede ser mayor que el máximo"
    case Fosforo => "El fósforo mínimo no puede ser mayor que el máximo"
    case Potasio => "El potasio mínimo no puede ser mayor que el máximo"
  }

  /** The parameter an error key belongs to. */
  function ParamOfKey(k: string): Option<Parametro> {
    if k == "temperaturaRange" then Some(Temperatura)
    else if k == "humedadRange" then Some(Humedad)
    else if k == "phRange" then Some(Ph)
    else if k == "nitrogenoRange" then Some(Nitrogeno)
    else if k == "fosforoRange" then Some(Fosforo)
    else if k == "potasioRange" then Some(Potasio)
    else None
  }

  /** Each key names its own parameter back. */
  lemma KeyNamesParam(p: Parametro)
    ensures ParamOfKey(ErrorKey(p)) == Some(p)
  {
  }

  lemma ErrorKeyInjective(p: Parametro, q: Parametro)
    ensures ErrorKey(p) == ErrorKey(q) <==> p == q
  {
    KeyNamesParam(p);
    KeyNamesParam(q);
  }

  /** JavaScript truthiness of a numeric control value: present and not zero. */
  predicate NumberTruthy(v: Option<real>) {
    v.Some? && v.value != 0.0
  }

  /** `min && max && min > max`. */
  predicate PairError(r: Rango) {
    NumberTruthy(r.min) && NumberTruthy(r.max) && r.min.value > r.max.value
  }

  /** One `if (min && max && min > max)` step: adds the entry of `p` when its pair offends. */
  function AddIf(errors: map<string, string>, rs: Rangos, checked: seq<Parametro>, p: Parametro): (r: map<string, string>)
    requires forall q :: ErrorKey(q) in errors <==> q in checked && PairError(RangoOf(rs, q))
    requires forall q :: ErrorKey(q) in errors ==> errors[ErrorKey(q)] == ErrorMessage(q)
    requires forall k :: k in errors ==> exists q :: q in checked && k == ErrorKey(q)
    ensures forall q :: ErrorKey(q) in r <==> (q in checked || q == p) && PairError(RangoOf(rs, q))
    ensures forall q :: ErrorKey(q) in r ==> r[ErrorKey(q)] == ErrorMessage(q)
    ensures forall k :: k in r ==> exists q :: (q in checked || q == p) && k == ErrorKey(q)
  {
    if PairError(RangoOf(rs, p)) then
      AddEntry(errors, rs, checked, p);
      errors[ErrorKey(p) := ErrorMessage(p)]
    else
      SkipEntry(errors, rs, checked, p);
      errors
  }

  /** An offending pair's entry joins the entries of the pairs checked before it. */
  lemma AddEntry(errors: map<string, string>, rs: Rangos, checked: seq<Parametro>, p: Parametro)
    requires PairError(RangoOf(rs, p))
    requires forall q :: ErrorKey(q) in errors <==> q in checked && PairError(RangoOf(rs, q))
    requires forall q :: ErrorKey(q) in errors ==> errors[ErrorKey(q)] == ErrorMessage(q)
    requires forall k :: k in errors ==> exists q :: q in checked && k == ErrorKey(q)
    ensures var r := errors[ErrorKey(p) := ErrorMessage(p)];
      && (forall q :: ErrorKey(q) in r <==> (q in checked || q == p) && PairError(RangoOf(rs, q)))
      && (forall q :: ErrorKey(q) in r ==> r[ErrorKey(q)] == ErrorMessage(q))
      && (forall k :: k in r ==> exists q :: (q in checked || q == p) && k == ErrorKey(q))
  {
    AddEntryKeys(errors, rs, checked, p);
    AddEntryValues(errors, p);
    AddEntryOrigin(errors, checked, p);
  }

  lemma AddEntryKeys(errors: map<string, string>, rs: Rangos, checked: seq<Parametro>, p: Parametro)
    requires PairError(RangoOf(rs, p))
    requires forall q :: ErrorKey(q) in errors <==> q in checked && PairError(RangoOf(rs, q))
    ensures var r := errors[ErrorKey(p) := ErrorMessage(p)];
      forall q :: ErrorKey(q) in r <==> (q in checked || q == p) && PairError(RangoOf(rs, q))
  {
    var r := errors[ErrorKey(p) := ErrorMessage(p)];
    forall q
      ensures ErrorKey(q) in r <==> (q in checked || q == p) && PairError(RangoOf(rs, q))
    {
      if q != p {
        ErrorKeyInjective(p, q);
        assert ErrorKey(q) in r <==> ErrorKey(q) in errors;
      }
    }
  }

  lemma AddEntryValues(errors: map<string, string>, p: Parametro)
    requires forall q :: ErrorKey(q) in errors ==> errors[ErrorKey(q)] == ErrorMessage(q)
    ensures var r := errors[ErrorKey(p) := ErrorMessage(p)];
      forall q :: ErrorKey(q) in r ==> r[ErrorKey(q)] == ErrorMessage(q)
  {
    var r := errors[ErrorKey(p) := ErrorMessage(p)];
    forall q | ErrorKey(q) in r
      ensures r[ErrorKey(q)] == ErrorMessage(q)
    {
      ErrorKeyInjective(p, q);
    }
  }

  lemma AddEntryOrigin(errors: map<string, string>, checked: seq<Parametro>, p: Parametro)
    requires forall k :: k in errors ==> exists q :: q in checked && k == ErrorKey(q)
    ensures var r := errors[ErrorKey(p) := ErrorMessage(p)];
      forall k :: k in r ==> exists q :: (q in checked || q == p) && k == ErrorKey(q)
  {
    var r := errors[ErrorKey(p) := ErrorMessage(p)];
    forall k | k in r
      ensures exists q :: (q in checked || q == p) && k == ErrorKey(q)
    {
      if k != ErrorKey(p) {
        var q :| q in checked && k == ErrorKey(q);
      }
    }
  }

  /** A pair that does not offend leaves the entries as they were. */
  lemma SkipEntry(errors: map<string, string>, rs: Rangos, checked: seq<Parametro>, p: Parametro)
    requires !PairError(RangoOf(rs, p))
    requires forall q :: ErrorKey(q) in errors <==> q in checked && PairError(RangoOf(rs, q))
    requires forall k :: k in errors ==> exists q :: q in checked && k == ErrorKey(q)
    ensures forall q :: ErrorKey(q) in errors <==> (q in checked || q == p) && PairError(RangoOf(rs, q))
    ensures forall k :: k in errors ==> exists q :: (q in checked || q == p) && k == ErrorKey(q)
  {
    forall k | k in errors
      ensures exists q :: (q in checked || q == p) && k == ErrorKey(q)
    {
      var q :| q in checked && k == ErrorKey(q);
    }
  }

  const Parametros := [Temperatura, Humedad, Ph, Nitrogeno, Fosforo, Potasio]

  /** The error object after checking the pairs of `ps` in order. */
  function ErroresDe(rs: Rangos, ps: seq<Parametro>): (r: map<string, string>)
    ensures forall p :: ErrorKey(p) in r <==> p in ps && PairError(RangoOf(rs, p))
    ensures forall p :: ErrorKey(p) in r ==> r[ErrorKey(p)] == ErrorMessage(p)
    ensures forall k :: k in r ==> exists p :: p in ps && k == ErrorKey(p)
  {
    if |ps| == 0 then map[]
    else
      var last := ps[|ps| - 1];
      var prev := ErroresDe(rs, ps[..|ps| - 1]);
      var r := AddIf(prev, rs, ps[..|ps| - 1], last);
      assert forall p :: p in ps <==> p in ps[..|ps| - 1] || p == last by {
        assert ps == ps[..|ps| - 1] + [last];
      }
      r
  }

  /** The error object the validator builds, one entry per offending pair. */
  function Errores(rs: Rangos): (r: map<string, string>)
    ensures forall p :: ErrorKey(p) in r <==> PairError(RangoOf(rs, p))
    ensures forall p :: ErrorKey(p) in r ==> r[ErrorKey(p)] == ErrorMessage(p)
    ensures forall k :: k in r ==> exists p :: k == ErrorKey(p)
  {
    AllParametros();
    ErroresDe(rs, Parametros)
  }

  lemma AllParametros()
    ensures forall p :: p in Parametros
  {
    forall p
      ensures p in Parametros
    {
      var i := match p
        case Temperatura => 0 case Humedad => 1 case Ph => 2
        case Nitrogeno => 3 case Fosforo => 4 case Potasio => 5;
      assert Parametros[i] == p;
    }
  }

  /** `validadorRangos`: `null` (`None`) when no pair offends, else the error object. */
  function ValidadorRangos(rs: Rangos): (r: Option<map<string, string>>)
    ensures r.None? <==> forall p :: !PairError(RangoOf(rs, p))
    ensures r.Some? ==> forall p :: ErrorKey(p) in r.value <==> PairError(RangoOf(rs, p))
    ensures r.Some? ==> forall p :: ErrorKey(p) in r.value ==> r.value[ErrorKey(p)] == ErrorMessage(p)
  {
    var errors := Errores(rs);
    if |errors| > 0 then Some(errors)
    else
      assert forall p :: !PairError(RangoOf(rs, p)) by {
        forall p
          ensures !PairError(RangoOf(rs, p))
        {
          assert ErrorKey(p) !in errors;
        }
      }
      None
  }

  /** Changing one pair changes at most that pair's entry. */
  lemma ErrorsAreLocal(rs: Rangos, p: Parametro, r: Rango)
    ensures forall q :: q != p ==>
      (ErrorKey(q) in Errores(WithRango(rs, p, r)) <==> ErrorKey(q) in Errores(rs))
  {
  }

  /** Equal bounds never offend: the comparison is strict. */
  lemma EqualBoundsAccepted(v: Option<real>)
    ensures !PairError(Rango(v, v))
  {
  }

  /** A zero or empty bound switches the check off, even when the minimum exceeds the maximum. */
  lemma FalsyBoundSuppresses(rs: Rangos, p: Parametro)
    requires RangoOf(rs, p) == Rango(Some(5.0), Some(0.0))
    ensures ErrorKey(p) !in Errores(rs)
    ensures !PairError(Rango(None, Some(-1.0)))
  {
  }

  /** The component's own fields. */
  datatype FormState = FormState(perfilParaEditar: Option<PerfilPlanta>, esEdicion: bool, guardando: bool)

  /** The edit flag agrees with the profile being edited, as every change of that input leaves it. */
  predicate Consistent(st: FormState) {
    st.esEdicion == st.perfilParaEditar.Some?
  }

  /** `ngOnChanges` for a new `perfilParaEditar`. */
  function OnPerfilParaEditarChange(st: FormState, perfil: Option<PerfilPlanta>): (r: FormState)
    ensures r.perfilParaEditar == perfil && r.guardando == st.guardando
    ensures r.esEdicion <==> perfil.Some?
    ensures Consistent(r)
  {
    st.(perfilParaEditar := perfil, esEdicion := perfil.Some?)
  }

  const CrearTitulo := "Crear Perfil de Planta"
  const EditandoPrefijo := "Editando: "

  /** `obtenerTituloModal`. */
  function ObtenerTituloModal(st: FormState): (r: string)
    ensures st.esEdicion && st.perfilParaEditar.Some? ==> r == EditandoPrefijo + st.perfilParaEditar.value.nombre
    ensures !(st.esEdicion && st.perfilParaEditar.Some?) ==> r == CrearTitulo
  {
    if st.esEdicion && st.perfilParaEditar.Some? then EditandoPrefijo + st.perfilParaEditar.value.nombre
    else CrearTitulo
  }

  /** The title names the profile exactly when a profile is being edited. */
  lemma TituloEditando(st: FormState)
    requires Consistent(st)
    ensures StartsWith(ObtenerTituloModal(st), EditandoPrefijo) <==> st.perfilParaEditar.Some?
  {
    var r := ObtenerTituloModal(st);
    if st.perfilParaEditar.Some? {
      assert r[..|EditandoPrefijo|] == EditandoPrefijo;
    } else {
      assert r[..|EditandoPrefijo|] != EditandoPrefijo by {
        assert r[0] == 'C' && EditandoPrefijo[0] == 'E';
      }
    }
  }

  /** `(perfil as any)[campo]` as displayed text; `None` for null or undefined. */
  function Valor(p: PerfilPlanta, campo: string): (r: Option<string>)
    ensures campo == "nombre" ==> r == Some(p.nombre)
    ensures campo == "id" ==> r == Some(IntToString(p.id))
  {
    if campo == "id" then Some(IntToString(p.id))
    else if campo == "nombre" then Some(p.nombre)
    else if campo == "activo" then Some(if p.activo then "true" else "false")
    else if campo in p.campos then Some(p.campos[campo])
    else None
  }

  /** `obtenerPlaceholderConValor`. */
  function ObtenerPlaceholderConValor(st: FormState, campo: string, placeholder: string): (r: string)
    ensures StartsWith(r, placeholder)
    ensures r != placeholder <==>
      st.esEdicion && st.perfilParaEditar.Some? && Valor(st.perfilParaEditar.value, campo).Some?
    ensures r != placeholder ==>
      r == placeholder + " (actual: " + Valor(st.perfilParaEditar.value, campo).value + ")"
  {
    var r := if st.esEdicion && st.perfilParaEditar.Some? && Valor(st.perfilParaEditar.value, campo).Some?
      then placeholder + " (actual: " + Valor(st.perfilParaEditar.value, campo).value + ")"
      else placeholder;
    assert r[..|placeholder|] == placeholder;
    r
  }

  /** The request `onSubmit` sends, or the null dereference of `perfilParaEditar!.id`. */
  datatype SaveRequest = Crear | Actualizar(id: int) | NullDereference

  datatype Submit = Submit(state: FormState, request: Option<SaveRequest>, marcarTocados: bool)

  /**
   * `perfilForm.invalid` read the other way: every control passes its own
   * validators and the group validator `validadorRangos` returns `null`.
   */
  predicate FormValid(controlsValid: bool, rs: Rangos) {
    controlsValid && ValidadorRangos(rs).None?
  }

  /**
   * `onSubmit`: an invalid form only marks the controls as touched; a valid
   * one sets `guardando` and asks the service to update the edited profile
   * or create a new one. `controlsValid` is the verdict of the controls'
   * own validators, `rs` the six min/max pairs the group validator reads.
   */
  function OnSubmit(st: FormState, controlsValid: bool, rs: Rangos): (r: Submit)
    ensures r.request.Some? <==> controlsValid && forall p :: !PairError(RangoOf(rs, p))
    ensures !FormValid(controlsValid, rs) ==> r.state == st && r.request == None && r.marcarTocados
    ensures FormValid(controlsValid, rs) ==> r.state == st.(guardando := true) && !r.marcarTocados
    ensures FormValid(controlsValid, rs) && st.esEdicion && st.perfilParaEditar.Some? ==>
      r.request == Some(Actualizar(st.perfilParaEditar.value.id))
    ensures FormValid(controlsValid, rs) && !st.esEdicion ==> r.request == Some(Crear)
  {
    if !FormValid(controlsValid, rs) then Submit(st, None, true)
    else
      var request :=
        if !st.esEdicion then Crear
        else if st.perfilParaEditar.Some? then Actualizar(st.perfilParaEditar.value.id)
        else NullDereference;
      Submit(st.(guardando := true), Some(request), false)
  }

  /** A crossed min/max pair makes the form invalid, so nothing reaches the service and the state is kept. */
  lemma CrossedRangeBlocksSave(st: FormState, controlsValid: bool, rs: Rangos, p: Parametro)
    requires PairError(RangoOf(rs, p))
    ensures OnSubmit(st, controlsValid, rs).request == None
    ensures OnSubmit(st, controlsValid, rs).state == st
    ensures OnSubmit(st, controlsValid, rs).marcarTocados
  {
  }

  /** From a state the inputs can reach, a submit never dereferences a missing profile. */
  lemma ConsistentSubmitSound(st: FormState, controlsValid: bool, rs: Rangos)
    requires Consistent(st)
    ensures OnSubmit(st, controlsValid, rs).request != Some(NullDereference)
  {
  }

  /** The failed save: `error.error?.message` and `error.message`, each `None` when absent. */
  datatype SaveError = SaveError(bodyMessage: Option<string>, message: Option<string>)

  const DefaultSaveError := "Error al guardar el perfil"

  /** The alert text for a failed save: the server's message, else the error's own, else the default. */
  function MensajeError(e: SaveError): (r: string)
    ensures r != ""
    ensures e.bodyMessage.Some? && e.bodyMessage.value != "" ==> r == e.bodyMessage.value
    ensures !(e.bodyMessage.Some? && e.bodyMessage.value != "") && e.message.Some? && e.message.value != "" ==> r == e.message.value
    ensures r != DefaultSaveError ==> r == e.bodyMessage.GetOr("") || r == e.message.GetOr("")
  {
    if e.bodyMessage.Some? && e.bodyMessage.value != "" then e.bodyMessage.value
    else if e.message.Some? && e.message.value != "" then e.message.value
    else DefaultSaveError
  }

  datatype FormEvent = PerfilGuardado(perfil: PerfilPlanta) | CerrarModal

  datatype Saved = Saved(state: FormState, events: seq<FormEvent>, alert: Option<string>, recargar: bool)

  /**
   * The outcome of the save: success emits the saved profile, closes the form
   * and reloads the list; failure shows the message. Either way `guardando`
   * ends.
   */
  function OnSaveResult(st: FormState, result: Result<PerfilPlanta, SaveError>): (r: Saved)
    ensures !r.state.guardando
    ensures r.state.perfilParaEditar == st.perfilParaEditar && r.state.esEdicion == st.esEdicion
    ensures result.Success? ==> r.events == [PerfilGuardado(result.value), CerrarModal] && r.alert == None && r.recargar
    ensures result.Failure? ==> r.events == [] && r.alert == Some(MensajeError(result.error)) && !r.recargar
  {
    match result
    case Success(perfil) => Saved(st.(guardando := false), [PerfilGuardado(perfil), CerrarModal], None, true)
    case Failure(e) => Saved(st.(guardando := false), [], Some(MensajeError(e)), false)
  }

  /**
   * A valid submit followed by its outcome ends with `guardando` off and
   * the edited profile unchanged; a failure keeps the form open, so a second
   * submit sends the same request.
   */
  lemma SaveRoundTrip(st: FormState, rs: Rangos, result: Result<PerfilPlanta, SaveError>)
    requires forall p :: !PairError(RangoOf(rs, p))
    ensures var sub := OnSubmit(st, true, rs);
      && sub.state.guardando
      && OnSaveResult(sub.state, result).state == st.(guardando := false)
      && (result.Failure? ==> CerrarModal !in OnSaveResult(sub.state, result).events
                              && OnSubmit(OnSaveResult(sub.state, result).state, true, rs).request == sub.request)
  {
  }

  /** While a profile is being edited its name shows in the name placeholder; once editing stops, no placeholder has a suffix. */
  lemma PlaceholderFollowsEdit(st: FormState, p: PerfilPlanta, campo: string, placeholder: string)
    ensures var ed := OnPerfilParaEditarChange(st, Some(p));
      ObtenerPlaceholderConValor(ed, "nombre", placeholder) == placeholder + " (actual: " + p.nombre + ")"
    ensures ObtenerPlaceholderConValor(OnPerfilParaEditarChange(st, None), campo, placeholder) == placeholder
  {
  }
}
