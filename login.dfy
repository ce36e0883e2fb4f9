/** The sign-in screen: two text inputs, their error messages, and the check
    that runs before the credentials are sent. Rendering, the asynchronous
    sign-in request, the loading flag, navigation and the alert shown on
    failure are not part of this model; `HandleLogin` returns the
    credentials it would send instead. */
module Login {
  import opened Wrappers
  import opened JsString
  import Register

  /** The keys of the error record. */
  datatype Field = Username | Password

  /** The error messages shown under the inputs, by field. */
  type Errors = map<Field, string>

  const UsernameRequired := "Kullanıcı adı gereklidir"
  const PasswordRequired := "Şifre gereklidir"

  /** The messages handleLogin records: one for a blank username and one for
      a blank password (here, unlike on the sign-up screen, the password is
      trimmed). */
  predicate IsLoginErrors(username: string, password: string, errors: Errors) {
    && (Username in errors <==> AllWhitespace(username))
    && (Password in errors <==> AllWhitespace(password))
    && (Username in errors ==> errors[Username] == UsernameRequired)
    && (Password in errors ==> errors[Password] == PasswordRequired)
  }

  /** The credentials may be sent: neither input is blank. */
  predicate Acceptable(username: string, password: string) {
    !AllWhitespace(username) && !AllWhitespace(password)
  }

  /** The checks of handleLogin, one `if` per input, building `newErrors`. */
  method ValidateLogin(username: string, password: string) returns (newErrors: Errors)
    ensures IsLoginErrors(username, password, newErrors)
  {
    var usernameBlank := IsBlank(username);
    var passwordBlank := IsBlank(password);
    newErrors := map[];
    if usernameBlank {
      newErrors := newErrors[Username := UsernameRequired];
    }
    if passwordBlank {
      newErrors := newErrors[Password := PasswordRequired];
    }
  }

  /** The messages are determined by the inputs. */
  lemma {:induction false} LoginErrorsUnique(username: string, password: string, e1: Errors, e2: Errors)
    requires IsLoginErrors(username, password, e1) && IsLoginErrors(username, password, e2)
    ensures e1 == e2
  {
    forall f ensures f in e1 <==> f in e2 {
      match f
      case Username =>
      case Password =>
    }
    assert e1.Keys == e2.Keys;
    forall f | f in e1 ensures e1[f] == e2[f] {
      match f
      case Username =>
      case Password =>
    }
  }

  /** No message is recorded exactly when both inputs are filled in. */
  lemma {:induction false} NoErrorsIffAcceptable(username: string, password: string, errors: Errors)
    requires IsLoginErrors(username, password, errors)
    ensures errors == map[] <==> Acceptable(username, password)
  {
    if Acceptable(username, password) {
      forall f ensures f !in errors {
        match f
        case Username =>
        case Password =>
      }
      assert errors.Keys == {};
    }
  }

  /** The two screens disagree on passwords: one of four or more whitespace
      characters passes the sign-up check, yet the sign-in check refuses it,
      so an account created with it cannot be signed in to from this screen. */
  lemma WhitespacePasswordRegistersButCannotLogIn(formData: Register.FormData)
    requires !AllWhitespace(formData.firstName) && !AllWhitespace(formData.lastName)
    requires !AllWhitespace(formData.username)
    requires |formData.password| >= 4 && AllWhitespace(formData.password)
    ensures Register.Acceptable(formData)
    ensures !Acceptable(formData.username, formData.password)
  {
  }

  /** The state of the sign-in screen. */
  class LoginScreen {
    var username: string
    var password: string
    var errors: Errors

    /** Empty inputs, no messages. */
    constructor ()
      ensures username == "" && password == "" && errors == map[]
    {
      username, password, errors := "", "", map[];
    }

    /** Typing in the username input; unlike on the sign-up screen, the
        message under the input stays until the next attempt. */
    method SetUsername(value: string)
      modifies this
      ensures username == value
      ensures password == old(password) && errors == old(errors)
    {
      username := value;
    }

    /** Typing in the password input; the messages stay. */
    method SetPassword(value: string)
      modifies this
      ensures password == value
      ensures username == old(username) && errors == old(errors)
    {
      password := value;
    }

    /** handleLogin up to the sign-in request: records the messages for the
        current inputs and returns the credentials to send when there is
        none. */
    method HandleLogin() returns (credentials: Option<(string, string)>)
      modifies this
      ensures username == old(username) && password == old(password)
      ensures IsLoginErrors(username, password, errors)
      ensures credentials.Some? <==> Acceptable(username, password)
      ensures credentials.Some? ==> credentials.value == (username, password)
    {
      var newErrors := ValidateLogin(username, password);
      errors := newErrors;
      NoErrorsIffAcceptable(username, password, newErrors);
      if newErrors != map[] {
        return None;
      }
      credentials := Some((username, password));
    }
  }
}
