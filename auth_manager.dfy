/** `AuthManager`: the albums prototype's local stand-in for sign-in. It
    accepts any email with an "@" and any password of six characters or
    more. `UUID()` values are parameters. */
module MockAuth {
  import opened Wrappers
  import opened Text
  import opened EventModel

  /** The credential rule of both `signIn` and `signUp`. */
  predicate AcceptsCredentials(email: string, password: string) {
    '@' in email && |password| >= 6
  }

  /** The user a successful attempt creates. */
  function MockUser(userId: string, email: string): User {
    User(userId, email, Some(FirstComponent(email, '@')), None, None)
  }

  datatype AuthState = AuthState(currentUser: Option<User>, isAuthenticated: bool)

  /** Signed in exactly when there is a user. */
  predicate Consistent(s: AuthState) {
    s.isAuthenticated <==> s.currentUser.Some?
  }

  const SignedOut: AuthState := AuthState(None, false)

  /** The state after `signIn` or `signUp`; a refused attempt has no else
      branch and leaves the state as it was. */
  function Attempt(s: AuthState, email: string, password: string, userId: string): AuthState {
    if AcceptsCredentials(email, password) then AuthState(Some(MockUser(userId, email)), true) else s
  }

  /** An accepted attempt signs in a user with that email, whose username is
      the text before the first "@" and who has no display name or avatar;
      a refused one changes nothing; either way the state stays consistent. */
  lemma AttemptSpec(s: AuthState, email: string, password: string, userId: string)
    ensures var r := Attempt(s, email, password, userId);
      && (AcceptsCredentials(email, password) ==>
            && r.isAuthenticated && r.currentUser.Some?
            && r.currentUser.value.id == userId && r.currentUser.value.email == email
            && r.currentUser.value.username == Some(email[..IndexOf(email, '@')])
            && r.currentUser.value.displayName.None? && r.currentUser.value.avatarUrl.None?)
      && (!AcceptsCredentials(email, password) ==> r == s)
      && (Consistent(s) ==> Consistent(r))
  {
    if '@' in email {
      FirstComponentIsPrefix(email, '@');
    }
  }

  /** A not-signed-in state is signed in after an attempt exactly when the
      credentials pass the rule. */
  lemma AttemptSucceedsIff(s: AuthState, email: string, password: string, userId: string)
    requires !s.isAuthenticated
    ensures Attempt(s, email, password, userId).isAuthenticated <==> AcceptsCredentials(email, password)
  {
  }

  class AuthManager {
    var currentUser: Option<User>
    var isAuthenticated: bool

    function State(): AuthState
      reads this
    {
      AuthState(currentUser, isAuthenticated)
    }

    constructor()
      ensures State() == SignedOut && Consistent(State())
    {
      currentUser := None;
      isAuthenticated := false;
    }

    method SignIn(email: string, password: string, userId: string)
      modifies this
      ensures State() == Attempt(old(State()), email, password, userId)
    {
      if AcceptsCredentials(email, password) {
        currentUser := Some(MockUser(userId, email));
        isAuthenticated := true;
      }
    }

    method SignUp(email: string, password: string, userId: string)
      modifies this
      ensures State() == Attempt(old(State()), email, password, userId)
    {
      if AcceptsCredentials(email, password) {
        currentUser := Some(MockUser(userId, email));
        isAuthenticated := true;
      }
    }

    /** Signing out ends in the same state whatever the state before, so a
        second sign-out changes nothing. */
    method SignOut()
      modifies this
      ensures State() == SignedOut
    {
      currentUser := None;
      isAuthenticated := false;
    }
  }
}
