/**
 * The session store (src/store/auth.ts): the current user and the flags the views watch,
 * moved by `init`, the session-change callback, `login`, `register`, `logout` and
 * `resendVerificationEmail`. Each awaited backend call is a `Reply` argument; the
 * credentials those calls carry are not modelled.
 */
module Auth {
  import opened Wrappers
  import opened Types
  import opened Backend

  /** The display name of a user whose metadata has none ("user"). */
  const DefaultName: string := "用户"

  /** The `User` built from a session user; `init`, the session listener and `login` build it alike. */
  function UserOfSession(su: SessionUser): (u: User)
    ensures u.id == su.id && u.createdAt == su.createdAt
    ensures su.email.None? ==> u.email == ""
    ensures su.email.Some? ==> u.email == su.email.value
    ensures u.name != ""
    ensures su.name.Some? && su.name.value != "" ==> u.name == su.name.value
    ensures su.name.None? || su.name == Some("") ==> u.name == DefaultName
  {
    User(su.id, su.email.GetOr(""), if su.name.Some? && su.name.value != "" then su.name.value else DefaultName, su.createdAt)
  }

  class AuthStore {
    var user: Option<User>
    var isLoading: bool
    var isInitialized: bool
    var error: Option<string>
    var isLoggingIn: bool
    var isRegistering: bool

    constructor ()
      ensures user == None && error == None
      ensures !isLoading && !isInitialized && !isLoggingIn && !isRegistering
    {
      user := None;
      isLoading := false;
      isInitialized := false;
      error := None;
      isLoggingIn := false;
      isRegistering := false;
    }

    /** `isAuthenticated` */
    predicate IsAuthenticated()
      reads this
      ensures IsAuthenticated() <==> user.Some?
    {
      user.Some?
    }

    /**
     * `init`, given the reply to `getSession` (a returned error comes with no session).
     * Does nothing once initialized; otherwise always ends initialized and not loading,
     * and takes the session's user when there is one.
     */
    method Init(session: Reply<Option<SessionUser>>)
      modifies this
      ensures old(isInitialized) ==> unchanged(this)
      ensures !old(isInitialized) ==> isInitialized && !isLoading
      ensures !old(isInitialized) ==>
                user == (if session.Ok? && session.data.Some? then Some(UserOfSession(session.data.value)) else old(user))
      ensures error == old(error) && isLoggingIn == old(isLoggingIn) && isRegistering == old(isRegistering)
    {
      if isInitialized {
        return;
      }
      isLoading := true;
      match session {
        case Ok(s) =>
          if s.Some? {
            user := Some(UserOfSession(s.value));
          }
          isInitialized := true;
        case ErrorReturned(_) =>
          isInitialized := true;
        case Threw(_) =>
          isInitialized := true;
      }
      isLoading := false;
    }

    /** The callback registered by `setupSessionListener`, run on each session change. */
    method OnAuthStateChange(session: Option<SessionUser>)
      modifies this`user
      ensures session.Some? ==> user == Some(UserOfSession(session.value))
      ensures session.None? ==> user == None
    {
      if session.Some? {
        user := Some(UserOfSession(session.value));
      } else {
        user := None;
      }
    }

    /**
     * `login`, given the reply to `signInWithPassword`. Succeeds iff the backend reports
     * no error; a failure records its message and keeps the user.
     */
    method Login(signIn: Reply<Option<SessionUser>>) returns (ok: bool)
      modifies this`user, this`error, this`isLoggingIn
      ensures ok <==> signIn.Ok?
      ensures !isLoggingIn
      ensures error == (if signIn.Ok? then None else Some(signIn.message))
      ensures user == (if signIn.Ok? && signIn.data.Some? then Some(UserOfSession(signIn.data.value)) else old(user))
    {
      isLoggingIn := true;
      error := None;
      match signIn {
        case Ok(u) =>
          if u.Some? {
            user := Some(UserOfSession(u.value));
          }
          ok := true;
        case ErrorReturned(m) =>
          error := Some(m);
          ok := false;
        case Threw(m) =>
          error := Some(m);
          ok := false;
      }
      isLoggingIn := false;
    }

    /**
     * `register`, given the replies to `signUp` and to the follow-up `resend`. The resend
     * is issued (`resent`) only after a successful sign-up and for a non-empty e-mail;
     * an error it returns is ignored, but a rejection is caught like a sign-up failure.
     */
    method Register(email: string, signUp: Reply<()>, resend: Reply<()>) returns (ok: bool, resent: bool)
      modifies this`error, this`isRegistering
      ensures resent <==> signUp.Ok? && email != ""
      ensures ok <==> signUp.Ok? && !(resent && resend.Threw?)
      ensures !signUp.Ok? ==> error == Some(signUp.message)
      ensures signUp.Ok? ==> error == (if resent && resend.Threw? then Some(resend.message) else None)
      ensures !isRegistering
    {
      isRegistering := true;
      error := None;
      resent := false;
      if !signUp.Ok? {
        error := Some(signUp.message);
        ok := false;
      } else {
        if email != "" {
          resent := true;
        }
        if resent && resend.Threw? {
          error := Some(resend.message);
          ok := false;
        } else {
          ok := true;
        }
      }
      isRegistering := false;
    }

    /**
     * `logout`, given the reply to `signOut`. Only a rejected call keeps the user; an
     * error the call returns is not looked at.
     */
    method Logout(signOut: Reply<()>) returns (ok: bool)
      modifies this`user, this`isLoading
      ensures ok <==> !signOut.Threw?
      ensures user == (if ok then None else old(user))
      ensures !isLoading
    {
      isLoading := true;
      if signOut.Threw? {
        ok := false;
      } else {
        user := None;
        ok := true;
      }
      isLoading := false;
    }

    /** `resendVerificationEmail`, given the reply to `resend`. */
    method ResendVerificationEmail(resend: Reply<()>) returns (ok: bool)
      modifies this`error
      ensures ok <==> resend.Ok?
      ensures error == (if ok then old(error) else Some(resend.message))
    {
      if resend.Ok? {
        ok := true;
      } else {
        error := Some(resend.message);
        ok := false;
      }
    }
  }
}
