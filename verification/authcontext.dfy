/** The authentication provider (src/contexts/AuthContext.tsx): the
    access check against the `users` collection, e-mail login, logout and
    the auth-state listener that decides when the application may render.
    Firebase calls are replaced by their outcomes, passed in. */
module Auth {
  import opened Common

  const NotAuthorizedMessage := "User not authorized. Please contact administrator."
  const DeactivatedMessage := "Account is deactivated. Please contact administrator."
  const LoginFallbackMessage := "Invalid email or password."
  const LogoutFallbackMessage := "Failed to logout."
  const DefaultRole := "user"

  /** The Firebase user that signed in. */
  datatype AuthUser = AuthUser(uid: string, email: string, displayName: Option<string>)

  /** A document of the `users` collection; `isActive` stands for its
      truthiness. */
  datatype UserDoc = UserDoc(isActive: bool, displayName: Option<string>, role: Option<string>)

  /** What reading `users/<uid>` gave. */
  datatype DocRead = ReadFailed(message: string) | Missing | Found(doc: UserDoc)

  /** The profile the rest of the site reads. */
  datatype UserData = UserData(uid: string, email: string, displayName: string, role: string, isActive: bool)

  /** A resolved value or a thrown error with its message. */
  datatype Checked = Granted(data: UserData) | Refused(message: string)

  /** `checkUserExists`: access is granted exactly when the profile
      document exists and is active; the profile takes the uid and
      e-mail of the signed-in user, the document's role or `'user'`, and
      the first non-empty display name of the document and of the user. */
  function CheckUserExists(user: AuthUser, read: DocRead): (r: Checked)
    ensures r.Granted? <==> read.Found? && read.doc.isActive
    ensures read.Missing? ==> r == Refused(NotAuthorizedMessage)
    ensures read.Found? && !read.doc.isActive ==> r == Refused(DeactivatedMessage)
    ensures read.ReadFailed? ==> r == Refused(read.message)
    ensures r.Granted? ==>
      r.data.uid == user.uid && r.data.email == user.email && r.data.isActive &&
      r.data.role == OrElse(read.doc.role, DefaultRole) &&
      r.data.displayName == OrElse(read.doc.displayName, OrElse(user.displayName, ""))
  {
    match read
    case ReadFailed(m) => Refused(m)
    case Missing => Refused(NotAuthorizedMessage)
    case Found(d) =>
      if d.isActive then
        Granted(UserData(user.uid, user.email,
                         OrElse(d.displayName, OrElse(user.displayName, "")),
                         OrElse(d.role, DefaultRole), true))
      else Refused(DeactivatedMessage)
  }

  /** A granted profile is active and its role is never empty. */
  lemma GrantedProfile(user: AuthUser, read: DocRead)
    requires CheckUserExists(user, read).Granted?
    ensures CheckUserExists(user, read).data.isActive
    ensures CheckUserExists(user, read).data.role != ""
  {
  }

  /** The provider's state: the Firebase user, the profile, and whether
      the first auth-state event is still awaited (children are hidden
      while it is). */
  datatype AuthState = AuthState(currentUser: Option<AuthUser>, userData: Option<UserData>, loading: bool)

  /** The listener callback as written: when the profile check fails and
      the `signOut` in its catch block rejects, the rejection escapes the
      callback before `setCurrentUser` and `setLoading(false)` run. */
  function ListenerAsWritten(s: AuthState, user: Option<AuthUser>, read: DocRead, signOut: Outcome): (r: AuthState)
    ensures user.None? ==> r == AuthState(None, None, false)
    ensures user.Some? && CheckUserExists(user.value, read).Refused? && signOut == Threw ==>
      r == s.(userData := None)
  {
    match user
    case None => AuthState(None, None, false)
    case Some(u) =>
      match CheckUserExists(u, read)
      case Granted(data) => AuthState(user, Some(data), false)
      case Refused(_) =>
        if signOut == Threw then s.(userData := None)
        else AuthState(user, None, false)
  }

  /** A refused user whose sign-out fails leaves the provider loading
      forever, so nothing under it is ever rendered. */
  lemma ListenerAsWrittenHangs()
    ensures ListenerAsWritten(AuthState(None, None, true),
                              Some(AuthUser("u1", "a@b.c", None)), Missing, Threw).loading
  {
  }

  /** The listener with the evident intent: every event ends the loading
      phase, whatever `signOut` does. */
  function Listener(user: Option<AuthUser>, read: DocRead): (r: AuthState)
    ensures !r.loading && r.currentUser == user
    ensures r.userData.Some? <==> user.Some? && CheckUserExists(user.value, read).Granted?
    ensures r.userData.Some? ==> r.userData.value == CheckUserExists(user.value, read).data
  {
    match user
    case None => AuthState(None, None, false)
    case Some(u) =>
      match CheckUserExists(u, read)
      case Granted(data) => AuthState(user, Some(data), false)
      case Refused(_) => AuthState(user, None, false)
  }

  /** Whenever the sign-out succeeds, or no sign-out is needed, the
      corrected listener and the written one agree. */
  lemma ListenerAgrees(s: AuthState, user: Option<AuthUser>, read: DocRead, signOut: Outcome)
    requires signOut == Resolved || user.None? || CheckUserExists(user.value, read).Granted?
    ensures ListenerAsWritten(s, user, read, signOut) == Listener(user, read)
  {
  }

  /** After any auth event, a profile is present only for the user that is
      signed in, and only if it is active. */
  lemma ListenerConsistent(user: Option<AuthUser>, read: DocRead)
    ensures Listener(user, read).userData.Some? ==>
      Listener(user, read).currentUser.Some? &&
      Listener(user, read).userData.value.uid == Listener(user, read).currentUser.value.uid &&
      Listener(user, read).userData.value.isActive
  {
  }

  /** What `signInWithEmailAndPassword` gave. */
  datatype SignIn = SignedIn(user: AuthUser) | SignInFailed(message: string)

  /** A toast shown to the user. */
  datatype Toast = Toast(title: string, description: string, destructive: bool)

  class AuthProvider {
    var currentUser: Option<AuthUser>
    var userData: Option<UserData>
    var loading: bool

    function State(): AuthState
      reads this
    {
      AuthState(currentUser, userData, loading)
    }

    constructor()
      ensures State() == AuthState(None, None, true)
    {
      currentUser, userData, loading := None, None, true;
    }

    /** `login`: on success the profile is stored and a welcome toast
        shown; on any failure the profile is left alone, the error's
        message (or the fallback text) is shown, and the error is
        rethrown, reported here as `ok == false`. */
    method Login(signIn: SignIn, read: DocRead) returns (ok: bool, toast: Toast)
      modifies this`userData
      ensures ok <==> signIn.SignedIn? && CheckUserExists(signIn.user, read).Granted?
      ensures ok ==> userData == Some(CheckUserExists(signIn.user, read).data)
      ensures ok ==> toast == Toast("Welcome back!", "You have successfully logged in.", false)
      ensures !ok ==> userData == old(userData) && toast.title == "Login Failed" && toast.destructive
      ensures !ok && signIn.SignInFailed? ==> toast.description == OrElse(Some(signIn.message), LoginFallbackMessage)
      ensures !ok && signIn.SignedIn? ==>
        toast.description == OrElse(Some(CheckUserExists(signIn.user, read).message), LoginFallbackMessage)
    {
      match signIn
      case SignInFailed(m) =>
        ok := false;
        toast := Toast("Login Failed", OrElse(Some(m), LoginFallbackMessage), true);
      case SignedIn(u) =>
        match CheckUserExists(u, read)
        case Granted(data) =>
          userData := Some(data);
          ok := true;
          toast := Toast("Welcome back!", "You have successfully logged in.", false);
        case Refused(m) =>
          ok := false;
          toast := Toast("Login Failed", OrElse(Some(m), LoginFallbackMessage), true);
    }

    /** `logout`: the profile is cleared only when `signOut` resolves;
        errors are shown, not rethrown. */
    method Logout(signOut: Outcome, errorMessage: string) returns (toast: Toast)
      modifies this`userData
      ensures signOut == Resolved ==> userData == None && !toast.destructive
      ensures signOut == Threw ==>
        userData == old(userData) && toast.destructive &&
        toast.description == OrElse(Some(errorMessage), LogoutFallbackMessage)
    {
      if signOut == Resolved {
        userData := None;
        toast := Toast("Goodbye!", "You have been logged out successfully.", false);
      } else {
        toast := Toast("Logout Failed", OrElse(Some(errorMessage), LogoutFallbackMessage), true);
      }
    }

    /** The `onAuthStateChanged` callback, corrected so that it always
        ends the loading phase. */
    method OnAuthStateChanged(user: Option<AuthUser>, read: DocRead)
      modifies this
      ensures State() == Listener(user, read)
    {
      match user {
        case None =>
          userData := None;
        case Some(u) =>
          match CheckUserExists(u, read) {
            case Granted(data) => userData := Some(data);
            case Refused(_) => userData := None;
          }
      }
      currentUser := user;
      loading := false;
    }
  }
}
