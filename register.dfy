/** The sign-up screen: a form of four text inputs and a role choice, the
    per-field error messages it shows, and the check that runs before an
    account is requested. Rendering, the asynchronous account request, the
    loading flag, navigation and the alert shown on failure are not part of
    this model; `HandleRegister` returns the form it would submit instead. */
module Register {
  import opened Wrappers
  import opened JsString

  /** The keys of the form: the four text inputs and the role. */
  datatype Field = FirstName | LastName | Username | Password | Role

  /** The form state; the role is `"individual"` or `"company"`, but it is
      stored through the same string-valued update as the text inputs. */
  datatype FormData = FormData(firstName: string, lastName: string, username: string, password: string, role: string)
  {
    function Get(field: Field): (value: string) {
      match field
      case FirstName => firstName
      case LastName => lastName
      case Username => username
      case Password => password
      case Role => role
    }

    /** `{ ...prev, [field]: value }`: `field` takes `value`, every other
        field keeps its value. */
    function With(field: Field, value: string): (r: FormData)
      ensures r.Get(field) == value
      ensures forall g :: g != field ==> r.Get(g) == Get(g)
    {
      match field
      case FirstName => this.(firstName := value)
      case LastName => this.(lastName := value)
      case Username => this.(username := value)
      case Password => this.(password := value)
      case Role => this.(role := value)
    }
  }

  const InitialFormData := FormData("", "", "", "", "individual")

  /** The error messages shown under the inputs, by field. */
  type Errors = map<Field, string>

  const FirstNameRequired := "Ad gereklidir"
  const LastNameRequired := "Soyad gereklidir"
  const UsernameRequired := "Kullanıcı adı gereklidir"
  const PasswordTooShort := "Şifre en az 4 karakter olmalıdır"

  /** `errors[field]` is truthy: the field has a message and it is not empty. */
  predicate Shows(errors: Errors, field: Field) {
    field in errors && errors[field] != ""
  }

  /** updateFormData: the edited field takes the new value and nothing else
      in the form changes; the edited field's message is blanked if one was
      shown, every other message stays, and no message is added or removed. */
  function UpdateFormData(formData: FormData, errors: Errors, field: Field, value: string): (r: (FormData, Errors))
    ensures r.0.Get(field) == value
    ensures forall g :: g != field ==> r.0.Get(g) == formData.Get(g)
    ensures r.1.Keys == errors.Keys
    ensures !Shows(r.1, field)
    ensures forall g :: g in errors && g != field ==> r.1[g] == errors[g]
  {
    (formData.With(field, value), if Shows(errors, field) then errors[field := ""] else errors)
  }

  /** Editing one field twice leaves the form as editing it once with the
      second value. */
  lemma {:induction false} UpdateFormDataLastWriteWins(formData: FormData, errors: Errors, field: Field, v1: string, v2: string)
    ensures var once := UpdateFormData(formData, errors, field, v1);
      UpdateFormData(once.0, once.1, field, v2).0 == UpdateFormData(formData, errors, field, v2).0
  {
    var a := UpdateFormData(UpdateFormData(formData, errors, field, v1).0, errors, field, v2).0;
    var b := UpdateFormData(formData, errors, field, v2).0;
    assert forall g :: a.Get(g) == b.Get(g);
    assert a.firstName == b.firstName by { assert a.Get(FirstName) == b.Get(FirstName); }
    assert a.lastName == b.lastName by { assert a.Get(LastName) == b.Get(LastName); }
    assert a.username == b.username by { assert a.Get(Username) == b.Get(Username); }
    assert a.password == b.password by { assert a.Get(Password) == b.Get(Password); }
    assert a.role == b.role by { assert a.Get(Role) == b.Get(Role); }
  }

  /** The messages handleRegister records for a form: a message for each
      blank name or username, one for a password of fewer than four UTF-16
      code units (spaces included, the password is not trimmed), and none
      for the role. */
  predicate IsRegistrationErrors(formData: FormData, errors: Errors) {
    && (FirstName in errors <==> AllWhitespace(formData.firstName))
    && (LastName in errors <==> AllWhitespace(formData.lastName))
    && (Username in errors <==> AllWhitespace(formData.username))
    && (Password in errors <==> Utf16Length(formData.password) < 4)
    && Role !in errors
    && (FirstName in errors ==> errors[FirstName] == FirstNameRequired)
    && (LastName in errors ==> errors[LastName] == LastNameRequired)
    && (Username in errors ==> errors[Username] == UsernameRequired)
    && (Password in errors ==> errors[Password] == PasswordTooShort)
  }

  /** The form may be submitted: every check of handleRegister passes. */
  predicate Acceptable(formData: FormData) {
    !AllWhitespace(formData.firstName) && !AllWhitespace(formData.lastName) &&
    !AllWhitespace(formData.username) && Utf16Length(formData.password) >= 4
  }

  /** The checks of handleRegister, one `if` per field, building `newErrors`. */
  method ValidateRegistration(formData: FormData) returns (newErrors: Errors)
    ensures IsRegistrationErrors(formData, newErrors)
  {
    var firstNameBlank := IsBlank(formData.firstName);
    var lastNameBlank := IsBlank(formData.lastName);
    var usernameBlank := IsBlank(formData.username);
    newErrors := map[];
    if firstNameBlank {
      newErrors := newErrors[FirstName := FirstNameRequired];
    }
    if lastNameBlank {
      newErrors := newErrors[LastName := LastNameRequired];
    }
    if usernameBlank {
      newErrors := newErrors[Username := UsernameRequired];
    }
    if Utf16Length(formData.password) < 4 {
      newErrors := newErrors[Password := PasswordTooShort];
    }
  }

  /** The messages are determined by the form. */
  lemma {:induction false} RegistrationErrorsUnique(formData: FormData, e1: Errors, e2: Errors)
    requires IsRegistrationErrors(formData, e1) && IsRegistrationErrors(formData, e2)
    ensures e1 == e2
  {
    assert forall f :: f in e1 <==> f in e2 by {
      forall f ensures f in e1 <==> f in e2 {
        match f
        case FirstName =>
        case LastName =>
        case Username =>
        case Password =>
        case Role =>
      }
    }
    assert e1.Keys == e2.Keys;
    forall f | f in e1 ensures e1[f] == e2[f] {
      match f
      case FirstName =>
      case LastName =>
      case Username =>
      case Password =>
      case Role =>
    }
  }

  /** No message is recorded exactly when every check passes. */
  lemma {:induction false} NoErrorsIffAcceptable(formData: FormData, errors: Errors)
    requires IsRegistrationErrors(formData, errors)
    ensures errors == map[] <==> Acceptable(formData)
  {
    if Acceptable(formData) {
      forall f ensures f !in errors {
        match f
        case FirstName =>
        case LastName =>
        case Username =>
        case Password =>
        case Role =>
      }
      assert errors.Keys == {};
    }
  }

  /** The state of the sign-up screen. */
  class RegisterScreen {
    var formData: FormData
    var errors: Errors

    /** Empty inputs, the individual role, no messages. */
    constructor ()
      ensures formData == InitialFormData && errors == map[]
    {
      formData := InitialFormData;
      errors := map[];
    }

    /** A change of a text input or a press of a role button. */
    method Edit(field: Field, value: string)
      modifies this
      ensures (formData, errors) == UpdateFormData(old(formData), old(errors), field, value)
    {
      var r := UpdateFormData(formData, errors, field, value);
      formData, errors := r.0, r.1;
    }

    /** handleRegister up to the account request: records the messages for
        the current form and returns the form to submit when there is none. */
    method HandleRegister() returns (request: Option<FormData>)
      modifies this
      ensures formData == old(formData)
      ensures IsRegistrationErrors(formData, errors)
      ensures request.Some? <==> Acceptable(formData)
      ensures request.Some? ==> request.value == formData
    {
      var newErrors := ValidateRegistration(formData);
      errors := newErrors;
      NoErrorsIffAcceptable(formData, newErrors);
      if newErrors != map[] {
        return None;
      }
      request := Some(formData);
    }
  }
}
