/** `LoginView` and `SignUpView` of the albums prototype: form checks with
    early returns before the authentication call. The manager methods these
    views call, with a completion that reports success, are not those
    `AuthManager` declares; their outcome is a parameter here. */
module LoginScreen {
  import opened Wrappers

  const MissingCredentials: string := "Please enter both email and password"
  const InvalidCredentials: string := "Invalid email or password"
  const MissingFields: string := "Please fill in all fields"
  const PasswordMismatch: string := "Passwords don't match"
  const SignUpFailed: string := "Failed to create account"

  /** The guard of `login()`: the message that stops it, if any. */
  function LoginCheck(email: string, password: string): (r: Option<string>)
    ensures r.None? <==> email != [] && password != []
    ensures r.Some? ==> r.value == MissingCredentials
  {
    if email == [] || password == [] then Some(MissingCredentials) else None
  }

  /** The guards of `signUp()`, emptiness first, then the password match. */
  function SignUpCheck(email: string, password: string, confirmPassword: string): (r: Option<string>)
    ensures r.None? <==> email != [] && password != [] && password == confirmPassword
  {
    if email == [] || password == [] then Some(MissingFields)
    else if password != confirmPassword then Some(PasswordMismatch)
    else None
  }

  /** An empty field is reported even when the passwords also differ; the
      mismatch is reported only for filled-in fields. */
  lemma SignUpCheckOrder(email: string, password: string, confirmPassword: string)
    ensures (email == [] || password == []) ==> SignUpCheck(email, password, confirmPassword) == Some(MissingFields)
    ensures email != [] && password != [] && password != confirmPassword ==>
      SignUpCheck(email, password, confirmPassword) == Some(PasswordMismatch)
  {
  }

  class LoginView {
    var email: string
    var password: string
    var isShowingSignUp: bool
    var errorMessage: string

    constructor()
      ensures email == [] && password == [] && !isShowingSignUp && errorMessage == []
    {
      email := [];
      password := [];
      isShowingSignUp := false;
      errorMessage := [];
    }

    /** `login()`: with an empty field it only sets the message; otherwise
        it delegates (`delegated`), and a reported failure (`success` false)
        sets the other message. */
    method Login(success: bool) returns (delegated: bool)
      modifies this
      ensures email == old(email) && password == old(password) && isShowingSignUp == old(isShowingSignUp)
      ensures delegated <==> LoginCheck(email, password).None?
      ensures !delegated ==> errorMessage == MissingCredentials
      ensures delegated && !success ==> errorMessage == InvalidCredentials
      ensures delegated && success ==> errorMessage == old(errorMessage)
    {
      var check := LoginCheck(email, password);
      if check.Some? {
        errorMessage := check.value;
        return false;
      }
      delegated := true;
      if !success {
        errorMessage := InvalidCredentials;
      }
    }

    /** "Don't have an account? Sign Up" */
    method ShowSignUp()
      modifies this
      ensures isShowingSignUp
      ensures email == old(email) && password == old(password) && errorMessage == old(errorMessage)
    {
      isShowingSignUp := true;
    }
  }

  class SignUpView {
    var email: string
    var password: string
    var confirmPassword: string
    var errorMessage: string
    var dismissed: bool

    constructor()
      ensures email == [] && password == [] && confirmPassword == [] && errorMessage == [] && !dismissed
    {
      email := [];
      password := [];
      confirmPassword := [];
      errorMessage := [];
      dismissed := false;
    }

    /** `signUp()`: the checks, then the call; success dismisses the sheet,
        failure sets the message. */
    method SignUp(success: bool) returns (delegated: bool)
      modifies this
      ensures email == old(email) && password == old(password) && confirmPassword == old(confirmPassword)
      ensures delegated <==> SignUpCheck(email, password, confirmPassword).None?
      ensures !delegated ==>
        errorMessage == SignUpCheck(email, password, confirmPassword).value && dismissed == old(dismissed)
      ensures delegated && success ==> dismissed && errorMessage == old(errorMessage)
      ensures delegated && !success ==> errorMessage == SignUpFailed && dismissed == old(dismissed)
    {
      var check := SignUpCheck(email, password, confirmPassword);
      if check.Some? {
        errorMessage := check.value;
        return false;
      }
      delegated := true;
      if success {
        dismissed := true;
      } else {
        errorMessage := SignUpFailed;
      }
    }
  }
}
