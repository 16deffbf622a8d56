/** `AuthViewModel`: the signed-in user of the event app and the loading and
    error flags of the three authentication calls. Each asynchronous hop
    completes atomically, in program order; the replies come from the
    service. */
module AuthScreen {
  import opened Wrappers
  import opened Platform
  import opened EventModel
  import opened Remote
  import opened Supabase

  class AuthViewModel {
    var currentUser: Option<User>
    var isAuthenticated: bool
    var isLoading: bool
    var errorMessage: Option<string>
    const service: SupabaseService

    /** Signed in exactly when there is a user. */
    predicate Valid()
      reads this
    {
      isAuthenticated <==> currentUser.Some?
    }

    constructor(service: SupabaseService)
      ensures Valid()
      ensures this.service == service
      ensures currentUser == None && !isAuthenticated && !isLoading && errorMessage == None
    {
      this.service := service;
      currentUser := None;
      isAuthenticated := false;
      isLoading := false;
      errorMessage := None;
    }

    /** `signIn`: the flags are set before the call (`atCall`); a user
        replaces the current one, an error only sets the message. */
    method SignIn(email: string, password: string) returns (reply: Result<User, Failure>, ghost atCall: (bool, Option<string>))
      requires Valid()
      modifies this, service.backend
      ensures Valid()
      ensures atCall == (true, None)
      ensures service.backend.log == old(service.backend.log) + [SignInCall(email, password)]
      ensures service.backend.store == old(service.backend.store)
      ensures !isLoading
      ensures reply.Success? ==> currentUser == Some(reply.value) && isAuthenticated && errorMessage == None
      ensures reply.Success? ==> service.backend.session == Some(reply.value.id)
      ensures reply.Failure? ==>
        && currentUser == old(currentUser) && isAuthenticated == old(isAuthenticated)
        && errorMessage == Some(reply.error.Description())
    {
      isLoading := true;
      errorMessage := None;
      atCall := (isLoading, errorMessage);
      reply := service.SignIn(email, password);
      match reply
      case Success(user) =>
        currentUser := Some(user);
        isAuthenticated := true;
        isLoading := false;
      case Failure(error) =>
        errorMessage := Some(error.Description());
        isLoading := false;
    }

    /** `signUp`: the transitions of `signIn`, for a new account. */
    method SignUp(email: string, password: string) returns (reply: Result<User, Failure>, ghost atCall: (bool, Option<string>))
      requires Valid()
      modifies this, service.backend
      ensures Valid()
      ensures atCall == (true, None)
      ensures service.backend.log == old(service.backend.log) + [SignUpCall(email, password)]
      ensures service.backend.store == old(service.backend.store)
      ensures !isLoading
      ensures reply.Success? ==> currentUser == Some(reply.value) && isAuthenticated && errorMessage == None
      ensures reply.Success? ==> service.backend.session == Some(reply.value.id)
      ensures reply.Failure? ==>
        && currentUser == old(currentUser) && isAuthenticated == old(isAuthenticated)
        && errorMessage == Some(reply.error.Description())
    {
      isLoading := true;
      errorMessage := None;
      atCall := (isLoading, errorMessage);
      reply := service.SignUp(email, password);
      match reply
      case Success(user) =>
        currentUser := Some(user);
        isAuthenticated := true;
        isLoading := false;
      case Failure(error) =>
        errorMessage := Some(error.Description());
        isLoading := false;
    }

    /** `signOut`: only `isLoading` is set before the call, so an earlier
        message survives a successful sign-out. */
    method SignOut() returns (error: Option<Failure>, ghost atCall: (bool, Option<string>))
      requires Valid()
      modifies this, service.backend
      ensures Valid()
      ensures atCall == (true, old(errorMessage))
      ensures service.backend.log == old(service.backend.log) + [SignOutCall]
      ensures service.backend.store == old(service.backend.store)
      ensures !isLoading
      ensures error.None? ==> currentUser == None && !isAuthenticated && errorMessage == old(errorMessage)
      ensures error.None? ==> service.backend.session == None
      ensures error.Some? ==>
        && currentUser == old(currentUser) && isAuthenticated == old(isAuthenticated)
        && errorMessage == Some(error.value.Description())
    {
      isLoading := true;
      atCall := (isLoading, errorMessage);
      error := service.SignOut();
      match error
      case None =>
        currentUser := None;
        isAuthenticated := false;
        isLoading := false;
      case Some(e) =>
        errorMessage := Some(e.Description());
        isLoading := false;
    }
  }
}
