/**
 * The registration form's own validators (password strength, names, spaces
 * in the e-mail) and the rules that turn a control's errors into the message
 * and the invalid marker the template shows. Angular's built-in validators
 * (`required`, `email`, `maxLength`) enter as flags.
 */
module Register {
  import opened Common
  import opened Strings

  predicate IsUpper(c: char) {
    'A' <= c <= 'Z'
  }

  predicate IsLower(c: char) {
    'a' <= c <= 'z'
  }

  /** The character class `[!@#$%^&*()_+\-=\[\]{};':"\\|,.<>\?]`. */
  predicate IsSpecial(c: char) {
    c in "!@#$%^&*()_+-=[]{};':\"\\|,.<>?"
  }

  predicate HasUpper(s: string) {
    exists i :: 0 <= i < |s| && IsUpper(s[i])
  }

  predicate HasLower(s: string) {
    exists i :: 0 <= i < |s| && IsLower(s[i])
  }

  predicate HasDigit(s: string) {
    exists i :: 0 <= i < |s| && IsDigit(s[i])
  }

  predicate HasSpecial(s: string) {
    exists i :: 0 <= i < |s| && IsSpecial(s[i])
  }

  /** The six flags reported under `passwordStrength`. */
  datatype PasswordStrength = PasswordStrength(
    hasUpperCase: bool, hasLowerCase: bool, hasNumeric: bool,
    hasSpecial: bool, hasNoSpaces: bool, isLengthValid: bool)

  predicate AllHold(f: PasswordStrength) {
    f.hasUpperCase && f.hasLowerCase && f.hasNumeric && f.hasSpecial && f.hasNoSpaces && f.isLengthValid
  }

  /** A strong password: every character class present, no white space, at least 8 UTF-16 units. */
  predicate StrongPassword(s: string) {
    HasUpper(s) && HasLower(s) && HasDigit(s) && HasSpecial(s) && !HasWhitespace(s) && Utf16Length(s) >= 8
  }

  /**
   * `passwordValidator`: `null` for an empty or absent value and for a strong
   * password; otherwise the six flags, each true exactly when its rule holds.
   */
  function PasswordValidator(value: Option<string>): (r: Option<PasswordStrength>)
    ensures value.None? || value == Some("") ==> r == None
    ensures value.Some? && value.value != "" ==> (r == None <==> StrongPassword(value.value))
    ensures r.Some? ==> !AllHold(r.value)
    ensures r.Some? ==> var v := value.value;
      && (r.value.hasUpperCase <==> HasUpper(v))
      && (r.value.hasLowerCase <==> HasLower(v))
      && (r.value.hasNumeric <==> HasDigit(v))
      && (r.value.hasSpecial <==> HasSpecial(v))
      && (r.value.hasNoSpaces <==> !HasWhitespace(v))
      && (r.value.isLengthValid <==> Utf16Length(v) >= 8)
  {
    if value.None? || value.value == "" then None
    else
      var v := value.value;
      var flags := PasswordStrength(HasUpper(v), HasLower(v), HasDigit(v), HasSpecial(v), !HasWhitespace(v), Utf16Length(v) >= 8);
      if AllHold(flags) then None else Some(flags)
  }

  /** Typing one more non-blank character keeps a strong password strong. */
  lemma StrongPasswordExtends(s: string, c: char)
    requires StrongPassword(s) && !IsWhitespace(c)
    ensures StrongPassword(s + [c])
  {
    var t := s + [c];
    assert forall i :: 0 <= i < |s| ==> t[i] == s[i];
    Utf16LengthAppend(s, c);
    var u :| 0 <= u < |s| && IsUpper(s[u]);
    assert IsUpper(t[u]);
    var l :| 0 <= l < |s| && IsLower(s[l]);
    assert IsLower(t[l]);
    var d :| 0 <= d < |s| && IsDigit(s[d]);
    assert IsDigit(t[d]);
    var p :| 0 <= p < |s| && IsSpecial(s[p]);
    assert IsSpecial(t[p]);
  }

  const ShortExample := "Abcde1!"

  /** The classes of the seven-character example: all present, no blank. */
  lemma ShortExampleClasses()
    ensures HasUpper(ShortExample) && HasLower(ShortExample) && HasDigit(ShortExample) && HasSpecial(ShortExample)
    ensures !HasWhitespace(ShortExample)
    ensures Utf16Length(ShortExample) == 7
  {
    var v := ShortExample;
    assert IsUpper(v[0]) && IsLower(v[1]) && IsDigit(v[5]) && IsSpecial(v[6]);
    assert !HasWhitespace(v) by {
      forall i | 0 <= i < |v|
        ensures !IsWhitespace(v[i])
      {
        assert v[i] in "Abcde1!";
      }
    }
    assert forall i :: 0 <= i < |v| ==> v[i] <= '\U{FFFF}';
  }

  /** A seven-character password fails on length alone, whatever its classes. */
  lemma ShortPasswordRejected()
    ensures PasswordValidator(Some(ShortExample)) == Some(PasswordStrength(true, true, true, true, true, false))
  {
    ShortExampleClasses();
  }

  /** The flags reported under `nameInvalid`. */
  datatype NameInvalid = NameInvalid(hasOnlyLettersAndSpaces: bool, isLengthValid: bool)

  /** The class `[a-zA-ZáéíóúÁÉÍÓÚñÑ\s]`. */
  predicate IsNameChar(c: char) {
    IsUpper(c) || IsLower(c) || c in "áéíóúÁÉÍÓÚñÑ" || IsWhitespace(c)
  }

  predicate OnlyNameChars(s: string) {
    forall i :: 0 <= i < |s| ==> IsNameChar(s[i])
  }

  /**
   * `nameValidator`: `null` when the trimmed value is empty or is made of
   * name characters with 2 to 50 UTF-16 units; otherwise both flags.
   */
  function NameValidator(value: Option<string>): (r: Option<NameInvalid>)
    ensures value.None? ==> r == None
    ensures value.Some? && Trim(value.value) == "" ==> r == None
    ensures value.Some? && Trim(value.value) != "" ==>
      var v := Trim(value.value);
      (r == None <==> OnlyNameChars(v) && 2 <= Utf16Length(v) <= 50)
      && (r.Some? ==> r.value == NameInvalid(OnlyNameChars(v), 2 <= Utf16Length(v) <= 50))
  {
    if value.None? then None
    else
      var v := Trim(value.value);
      if v == "" then None
      else
        var hasOnly := OnlyNameChars(v);
        var isLengthValid := 2 <= Utf16Length(v) && Utf16Length(v) <= 50;
        if hasOnly && isLengthValid then None else Some(NameInvalid(hasOnly, isLengthValid))
  }

  /** A name is judged on its trimmed text: white space on either side changes nothing. */
  lemma NamePaddingIgnored(w1: string, s: string, w2: string)
    requires AllWhitespace(w1) && AllWhitespace(w2)
    ensures NameValidator(Some(w1 + s + w2)) == NameValidator(Some(s))
  {
    TrimPadded(w1, s, w2);
  }

  /** A name of blanks only passes the name validator. */
  lemma BlankNamePasses(s: string)
    requires forall i :: 0 <= i < |s| ==> IsWhitespace(s[i])
    ensures NameValidator(Some(s)) == None
  {
    TrimEmptyIff(s);
  }

  /** The custom e-mail validator: `value && /\s/.test(value)`. */
  function EmailHasSpaces(value: Option<string>): (r: bool)
    ensures r <==> value.Some? && value.value != "" && exists i :: 0 <= i < |value.value| && IsWhitespace(value.value[i])
  {
    value.Some? && value.value != "" && HasWhitespace(value.value)
  }

  /** Any blank anywhere in a non-empty address sets `hasSpaces`. */
  lemma BlankInEmailFlagged(before: string, c: char, after: string)
    requires IsWhitespace(c)
    ensures EmailHasSpaces(Some(before + [c] + after))
  {
    assert (before + [c] + after)[|before|] == c;
  }

  /** A control's `errors`, `null` when nothing is set. */
  datatype FieldErrors = FieldErrors(
    required: bool, email: bool, hasSpaces: bool, maxlength: bool,
    passwordStrength: Option<PasswordStrength>, nameInvalid: Option<NameInvalid>)

  predicate AnyError(e: FieldErrors) {
    e.required || e.email || e.hasSpaces || e.maxlength || e.passwordStrength.Some? || e.nameInvalid.Some?
  }

  datatype Control = Control(value: string, touched: bool, dirty: bool, errors: FieldErrors)

  /** The form's controls by name. */
  type Form = map<string, Control>

  /** `errors && (touched || dirty || value)`: the control has errors worth showing. */
  predicate Shown(c: Control) {
    AnyError(c.errors) && (c.touched || c.dirty || c.value != "")
  }

  const EmailMessage := "Ingresa un email válido (ejemplo@dominio.com)"
  const SpacesMessage := "No debe contener espacios"
  const TooLongMessage := "Demasiado largo"
  const LettersMessage := "Solo se permiten letras y espacios"
  const NameLengthMessage := "Debe tener entre 2 y 50 caracteres"

  /** An error checked before the name validator's. */
  predicate EarlierError(e: FieldErrors) {
    e.required || e.email || e.hasSpaces || e.maxlength || e.passwordStrength.Some?
  }

  /** The message of the first error in checking order, for errors already known to be shown. */
  function FirstMessage(fieldName: string, e: FieldErrors): (r: string)
    ensures e.required ==> r == fieldName + " es requerido"
    ensures !e.required && e.email ==> r == EmailMessage
    ensures !e.required && !e.email && e.hasSpaces ==> r == SpacesMessage
    ensures !e.required && !e.email && !e.hasSpaces && e.maxlength ==> r == TooLongMessage
    ensures !e.required && !e.email && !e.hasSpaces && !e.maxlength && e.passwordStrength.Some? ==> r == ""
    ensures !EarlierError(e) && e.nameInvalid.Some? && !e.nameInvalid.value.hasOnlyLettersAndSpaces ==> r == LettersMessage
    ensures !EarlierError(e) && e.nameInvalid == Some(NameInvalid(true, false)) ==> r == NameLengthMessage
    ensures !EarlierError(e) && e.nameInvalid in {None, Some(NameInvalid(true, true))} ==> r == ""
  {
    if e.required then fieldName + " es requerido"
    else if e.email then EmailMessage
    else if e.hasSpaces then SpacesMessage
    else if e.maxlength then TooLongMessage
    else if e.passwordStrength.Some? then ""
    else if e.nameInvalid.Some? && !e.nameInvalid.value.hasOnlyLettersAndSpaces then LettersMessage
    else if e.nameInvalid.Some? && !e.nameInvalid.value.isLengthValid then NameLengthMessage
    else ""
  }

  /** `getFieldError`: a message only for a known control whose errors are shown. */
  function GetFieldError(form: Form, fieldName: string): (r: string)
    ensures fieldName !in form || !Shown(form[fieldName]) ==> r == ""
    ensures fieldName in form && Shown(form[fieldName]) ==> r == FirstMessage(fieldName, form[fieldName].errors)
  {
    if fieldName in form && Shown(form[fieldName]) then FirstMessage(fieldName, form[fieldName].errors) else ""
  }

  /** `isFieldInvalid`: the control exists and its errors are shown; a control that is not invalid shows no message. */
  predicate IsFieldInvalid(form: Form, fieldName: string)
    ensures !IsFieldInvalid(form, fieldName) ==> GetFieldError(form, fieldName) == ""
    ensures IsFieldInvalid(form, fieldName) ==> AnyError(form[fieldName].errors)
  {
    fieldName in form && Shown(form[fieldName])
  }

  /** A message is only ever shown for a control marked invalid. */
  lemma MessageImpliesInvalid(form: Form, fieldName: string)
    ensures GetFieldError(form, fieldName) != "" ==> IsFieldInvalid(form, fieldName)
  {
  }

  /** A weak password alone marks its control invalid but leaves the text message to the strength widget. */
  lemma WeakPasswordHasNoMessage(form: Form, f: PasswordStrength)
    requires "password" in form && form["password"].errors == FieldErrors(false, false, false, false, Some(f), None)
    requires form["password"].touched
    ensures IsFieldInvalid(form, "password") && GetFieldError(form, "password") == ""
  {
  }

  /** For a name, bad characters are reported before a bad length. */
  lemma NameCharactersBeforeLength(form: Form, fieldName: string)
    requires fieldName in form && form[fieldName].touched
    requires form[fieldName].errors == FieldErrors(false, false, false, false, None, Some(NameInvalid(false, false)))
    ensures GetFieldError(form, fieldName) == LettersMessage
  {
  }

  /** The errors of the password control: `required` and the strength validator. */
  function PasswordErrors(value: string): (r: FieldErrors)
    ensures r.required <==> value == ""
    ensures r.passwordStrength == PasswordValidator(Some(value))
  {
    FieldErrors(value == "", false, false, false, PasswordValidator(Some(value)), None)
  }

  /** The password control never gets a text message other than the required one. */
  lemma PasswordMessages(value: string, touched: bool, dirty: bool)
    ensures var form := map["password" := Control(value, touched, dirty, PasswordErrors(value))];
      GetFieldError(form, "password") in {"", "password es requerido"}
  {
    var e := PasswordErrors(value);
    var form := map["password" := Control(value, touched, dirty, e)];
    assert "password" in form && form["password"].errors == e;
    if value != "" {
      assert !e.required && !e.email && !e.hasSpaces && !e.maxlength && e.nameInvalid.None?;
      if e.passwordStrength.Some? {
        assert FirstMessage("password", e) == "";
      } else {
        assert !AnyError(e);
      }
      assert GetFieldError(form, "password") == "";
    } else {
      assert GetFieldError(form, "password") == "" || GetFieldError(form, "password") == "password es requerido";
    }
  }

  /** The errors of a name control: `required` (an empty string) and the name validator. */
  function NameErrors(value: string): (r: FieldErrors)
    ensures r.required <==> value == ""
    ensures r.nameInvalid == NameValidator(Some(value))
  {
    FieldErrors(value == "", false, false, false, None, NameValidator(Some(value)))
  }

  /** A name of blanks passes both `required` and the name validator, so the control is valid. */
  lemma BlankNameAccepted()
    ensures !AnyError(NameErrors("   "))
  {
    BlankNamePasses("   ");
  }

  /**
   * The errors of the e-mail control: `required`, the format check (its
   * result a parameter; it is silent on ''), `maxLength(254)` in UTF-16
   * units, and the spaces check.
   */
  function EmailErrors(value: string, formatOk: bool): (r: FieldErrors)
    ensures r.required <==> value == ""
    ensures r.email <==> value != "" && !formatOk
    ensures r.maxlength <==> Utf16Length(value) > 254
    ensures r.hasSpaces == EmailHasSpaces(Some(value))
    ensures r.passwordStrength.None? && r.nameInvalid.None?
  {
    FieldErrors(value == "", value != "" && !formatOk, EmailHasSpaces(Some(value)), Utf16Length(value) > 254, None, None)
  }

  /** A well-formed, short enough address with a blank in it is reported for its spaces; without one it shows nothing. */
  lemma EmailSpacesMessage(value: string, formatOk: bool, touched: bool)
    requires value != "" && formatOk && Utf16Length(value) <= 254
    ensures var form := map["email" := Control(value, touched, false, EmailErrors(value, formatOk))];
      GetFieldError(form, "email") == (if EmailHasSpaces(Some(value)) then SpacesMessage else "")
  {
  }

  /** The message after a failed registration request. */
  function RegisterErrorMessage(status: int, serverMessage: Option<string>): (r: string)
    ensures r != ""
    ensures status == 409 ==> r == "Este email ya está registrado"
    ensures status == 404 ==> r == "Error de conexión con el servidor"
    ensures status != 409 && status != 404 && serverMessage.Some? && serverMessage.value != "" ==> r == serverMessage.value
    ensures status != 409 && status != 404 && !(serverMessage.Some? && serverMessage.value != "") ==> r == "Error en el registro"
  {
    if status == 409 then "Este email ya está registrado"
    else if status == 404 then "Error de conexión con el servidor"
    else if serverMessage.Some? && serverMessage.value != "" then serverMessage.value
    else "Error en el registro"
  }

  /** The duplicate-address text appears exactly for a 409, or when the server itself sends that text for a status other than 404. */
  lemma DuplicateMessageIff(status: int, serverMessage: Option<string>)
    ensures RegisterErrorMessage(status, serverMessage) == "Este email ya está registrado"
      <==> status == 409 || (status != 404 && serverMessage == Some("Este email ya está registrado"))
  {
  }
}
