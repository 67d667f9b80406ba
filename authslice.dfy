/**
 * The authentication slice of the web store
 * (frontend/src/store/slices/authSlice.ts): the signed-in user and tokens, a
 * loading flag and an error message, driven by the login, register and logout
 * thunks.
 */
module AuthSlice {
  import opened Wrappers

  datatype User = User(id: string, email: string, username: string, avatar: Option<string>)

  /** The payload of a fulfilled login or register. */
  datatype Session = Session(user: User, token: string, refreshToken: string)

  /**
   * How a thunk ends. A rejected thunk carries the `rejectWithValue` payload, or
   * `None` when the body's promise itself rejected.
   */
  datatype ThunkOutcome<R> = Fulfilled(value: R) | Rejected(payload: Option<string>)

  const LoginFailed: string := "Giriş başarısız"
  const RegisterFailed: string := "Kayıt başarısız"
  const LogoutFailed: string := "Çıkış başarısız"
  const Unavailable: string := "Bu özellik şu anda kullanılamıyor"

  /**
   * The three thunk bodies. Each returns `Promise.reject(new Error(...))` from
   * inside `try` without awaiting it, so the `catch` never runs: the thunk is
   * rejected with no payload, and `rejectWithValue` is never called.
   */
  function LoginThunk(email: string, password: string): ThunkOutcome<Session> {
    Rejected(None)
  }

  function RegisterThunk(username: string, email: string, password: string): ThunkOutcome<Session> {
    Rejected(None)
  }

  function LogoutThunk(): ThunkOutcome<()> {
    Rejected(None)
  }

  /** `action.payload || fallback`. */
  function RejectionMessage(payload: Option<string>, fallback: string): (r: string)
    ensures Truthy(payload) ==> r == payload.value
    ensures !Truthy(payload) ==> r == fallback
  {
    OrElse(payload, Some(fallback)).value
  }

  class AuthStore {
    var user: Option<User>
    var token: Option<string>
    var refreshToken: Option<string>
    var loading: bool
    var error: Option<string>

    constructor()
      ensures user == None && token == None && refreshToken == None && !loading && error == None
    {
      user, token, refreshToken, loading, error := None, None, None, false, None;
    }

    method ClearError()
      modifies this
      ensures error == None
      ensures user == old(user) && token == old(token) && refreshToken == old(refreshToken) && loading == old(loading)
    {
      error := None;
    }

    method UpdateUser(u: User)
      modifies this
      ensures user == Some(u)
      ensures token == old(token) && refreshToken == old(refreshToken) && loading == old(loading) && error == old(error)
    {
      user := Some(u);
    }

    /** `login.pending` and `register.pending`. */
    method Pending()
      modifies this
      ensures loading && error == None
      ensures user == old(user) && token == old(token) && refreshToken == old(refreshToken)
    {
      loading := true;
      error := None;
    }

    /** `login.fulfilled` and `register.fulfilled`. */
    method SignedIn(s: Session)
      modifies this
      ensures !loading && user == Some(s.user) && token == Some(s.token) && refreshToken == Some(s.refreshToken)
      ensures error == old(error)
    {
      loading := false;
      user, token, refreshToken := Some(s.user), Some(s.token), Some(s.refreshToken);
    }

    /** `login.rejected` (with `LoginFailed`) and `register.rejected` (with `RegisterFailed`). */
    method SignInRejected(payload: Option<string>, fallback: string)
      modifies this
      ensures !loading && error == Some(RejectionMessage(payload, fallback))
      ensures user == old(user) && token == old(token) && refreshToken == old(refreshToken)
    {
      loading := false;
      error := Some(RejectionMessage(payload, fallback));
    }

    method LogoutFulfilled()
      modifies this
      ensures user == None && token == None && refreshToken == None
      ensures loading == old(loading) && error == old(error)
    {
      user, token, refreshToken := None, None, None;
    }

    method LogoutRejected(payload: Option<string>)
      modifies this
      ensures error == Some(RejectionMessage(payload, LogoutFailed))
      ensures user == old(user) && token == old(token) && refreshToken == old(refreshToken) && loading == old(loading)
    {
      error := Some(RejectionMessage(payload, LogoutFailed));
    }

    /** The fulfilled or rejected case of `login` or `register`, for any outcome. */
    method SettleSignIn(outcome: ThunkOutcome<Session>, fallback: string)
      modifies this
      ensures !loading
      ensures outcome.Fulfilled? ==>
        user == Some(outcome.value.user) && token == Some(outcome.value.token)
        && refreshToken == Some(outcome.value.refreshToken) && error == old(error)
      ensures outcome.Rejected? ==>
        user == old(user) && token == old(token) && refreshToken == old(refreshToken)
        && error == Some(RejectionMessage(outcome.payload, fallback))
    {
      match outcome {
        case Fulfilled(s) => SignedIn(s);
        case Rejected(p) => SignInRejected(p, fallback);
      }
    }

    /** The fulfilled or rejected case of `logout`, for any outcome. */
    method SettleLogout(outcome: ThunkOutcome<()>)
      modifies this
      ensures loading == old(loading)
      ensures outcome.Fulfilled? ==> user == None && token == None && refreshToken == None && error == old(error)
      ensures outcome.Rejected? ==>
        user == old(user) && token == old(token) && refreshToken == old(refreshToken)
        && error == Some(RejectionMessage(outcome.payload, LogoutFailed))
    {
      match outcome {
        case Fulfilled(_) => LogoutFulfilled();
        case Rejected(p) => LogoutRejected(p);
      }
    }

    /** Dispatching `login`: pending, then the thunk's outcome. */
    method Login(email: string, password: string)
      modifies this
      ensures !loading
      ensures user == old(user) && token == old(token) && refreshToken == old(refreshToken)
      ensures error == Some(LoginFailed)
    {
      Pending();
      SettleSignIn(LoginThunk(email, password), LoginFailed);
    }

    /** Dispatching `register`. */
    method Register(username: string, email: string, password: string)
      modifies this
      ensures !loading
      ensures user == old(user) && token == old(token) && refreshToken == old(refreshToken)
      ensures error == Some(RegisterFailed)
    {
      Pending();
      SettleSignIn(RegisterThunk(username, email, password), RegisterFailed);
    }

    /** Dispatching `logout`: there is no pending case, and the rejection only sets the error. */
    method Logout()
      modifies this
      ensures user == old(user) && token == old(token) && refreshToken == old(refreshToken) && loading == old(loading)
      ensures error == Some(LogoutFailed)
    {
      SettleLogout(LogoutThunk());
    }
  }

  /**
   * None of the thunks can succeed, and none rejects with a payload, so the
   * message 'Bu özellik şu anda kullanılamıyor' never reaches the store.
   */
  lemma ThunksAlwaysRejectWithoutPayload(email: string, password: string, username: string)
    ensures LoginThunk(email, password).Rejected? && !Truthy(LoginThunk(email, password).payload)
    ensures RegisterThunk(username, email, password).Rejected?
      && !Truthy(RegisterThunk(username, email, password).payload)
    ensures LogoutThunk().Rejected? && !Truthy(LogoutThunk().payload)
    ensures RejectionMessage(LoginThunk(email, password).payload, LoginFailed) != Unavailable
  {
  }
}
