/**
 * components/app/SignupPage.tsx: the sign-up form. `handleSignup` checks the three
 * fields in a fixed order and reports only the first failure; when all pass it posts
 * the username and password, and on the server's success it signs the user in and
 * runs the store's initial sync.
 *
 * The server's reply, whether the browser is online and the replies of the initial
 * sync's two requests are parameters of the handler.
 */
module SignupPage {
  import opened Wrappers
  import opened Types
  import opened IncomeForm
  import Store
  import Sync
  import SignupRoute

  const MismatchMessage: string := "رمز عبور و تکرار آن مطابقت ندارند"
  const SignupFailedMessage: string := "ثبت\U{200C}نام ناموفق بود"

  /**
   * The checks of `handleSignup`, in order: a field left empty, a username shorter
   * than 3, a password shorter than 6, a confirmation that differs. The message of the
   * first failure, or `None` when the request may be sent.
   */
  function ClientError(username: string, password: string, confirmPassword: string): (r: Option<string>)
    ensures r.None? <==>
      |username| >= SignupRoute.MinUsernameLength && |password| >= SignupRoute.MinPasswordLength
      && password == confirmPassword
    ensures username == "" || password == "" ==> r == Some(SignupRoute.MissingMessage)
    ensures username != "" && password != "" && |username| < SignupRoute.MinUsernameLength ==>
      r == Some(SignupRoute.ShortUsernameMessage)
    ensures password != "" && |username| >= SignupRoute.MinUsernameLength ==>
      (|password| < SignupRoute.MinPasswordLength ==> r == Some(SignupRoute.ShortPasswordMessage))
    ensures |username| >= SignupRoute.MinUsernameLength && |password| >= SignupRoute.MinPasswordLength ==>
      (password != confirmPassword ==> r == Some(MismatchMessage))
  {
    if username == "" || password == "" then Some(SignupRoute.MissingMessage)
    else if |username| < 3 then Some(SignupRoute.ShortUsernameMessage)
    else if |password| < 6 then Some(SignupRoute.ShortPasswordMessage)
    else if password != confirmPassword then Some(MismatchMessage)
    else None
  }

  /**
   * The page's checks are the endpoint's validation followed by the confirmation
   * check: the same inputs fail with the same message, and whatever the page lets
   * through the endpoint's validation lets through too.
   */
  lemma ClientAgreesWithServer(username: string, password: string, confirmPassword: string)
    ensures var server := SignupRoute.ValidationError(Some(username), Some(password));
      ClientError(username, password, confirmPassword) ==
        if server.Some? then server
        else if password != confirmPassword then Some(MismatchMessage)
        else None
    ensures ClientError(username, password, confirmPassword).None? ==>
      SignupRoute.ValidationError(Some(username), Some(password)).None?
  {
  }

  /** The JSON the page reads back: a thrown request, a refusal, or the new user. */
  datatype SignupReply =
    | ReplyThrew
    | ReplyFailed(error: string)
    | ReplySucceeded(user: User, token: string)

  datatype SignupOutcome =
    | Invalid(message: string)
    | Refused(message: string)
    | ConnectionError
    | SignedUp

  /**
   * The store after the success path: the user, the token and the signed-in flag set,
   * then `initialSync` (which does nothing when the token is empty).
   */
  function AfterSignup(s: Store.StoreState, user: User, token: string, online: bool,
                       loadReply: Store.LoadReply): (r: Store.StoreState)
    ensures r.user == Some(user) && r.token == Some(token) && r.isAuthenticated
    ensures r.incomes == s.incomes && r.isOnboarded == s.isOnboarded
    ensures token != "" && online && Store.LoadedSavings(loadReply).Some? ==>
      r.savings == Store.LoadedSavings(loadReply).value
    ensures !(token != "" && online && Store.LoadedSavings(loadReply).Some?) ==> r.savings == s.savings
  {
    var signedIn := s.(user := Some(user), isAuthenticated := true, token := Some(token));
    if token == "" then signedIn
    else if online then
      signedIn.(
        savings := if Store.LoadedSavings(loadReply).Some? then Store.LoadedSavings(loadReply).value else signedIn.savings,
        isLoading := false)
    else signedIn.(isLoading := false)
  }

  /**
   * Whether the initial sync after signing up empties the pending queue: it runs only
   * with a token and online, and clears a non-empty queue when the server accepts it.
   */
  predicate QueueFlushed(token: string, online: bool, queue: seq<Saving>, syncReply: Sync.Reply) {
    token != "" && online && queue != [] && Sync.Succeeded(syncReply)
  }

  class SignupPage {
    var username: string
    var password: string
    var confirmPassword: string
    var loading: bool

    constructor ()
      ensures username == "" && password == "" && confirmPassword == "" && !loading
    {
      username := "";
      password := "";
      confirmPassword := "";
      loading := false;
    }

    /**
     * `handleSignup`. A failed check is reported and nothing else happens: no request,
     * no change to the store or the pending queue, `loading` untouched. Otherwise the
     * request is sent; a thrown request or a refusal leaves the store as it was; a
     * success signs the user in and runs the initial sync. Every path that sent the
     * request ends with `loading` off.
     */
    method HandleSignup(store: Store.AppStore, pending: Sync.PendingSync, reply: SignupReply, online: bool,
                        syncReply: Sync.Reply, loadReply: Store.LoadReply)
      returns (outcome: SignupOutcome)
      modifies this, store, pending
      ensures username == old(username) && password == old(password) && confirmPassword == old(confirmPassword)
      ensures ClientError(username, password, confirmPassword).Some? ==>
        && outcome == Invalid(ClientError(username, password, confirmPassword).value)
        && store.state == old(store.state) && pending.entry == old(pending.entry) && loading == old(loading)
      ensures ClientError(username, password, confirmPassword).None? ==> !loading && !outcome.Invalid?
      ensures ClientError(username, password, confirmPassword).None? && !reply.ReplySucceeded? ==>
        && outcome == (if reply.ReplyThrew? then ConnectionError
                       else Refused(TextOr(reply.error, SignupFailedMessage)))
        && store.state == old(store.state) && pending.entry == old(pending.entry)
      ensures ClientError(username, password, confirmPassword).None? && reply.ReplySucceeded? ==>
        && outcome == SignedUp
        && store.state == AfterSignup(old(store.state), reply.user, reply.token, online, loadReply)
        && (QueueFlushed(reply.token, online, old(pending.Queue()), syncReply) ==> pending.entry == Sync.Absent)
        && (!QueueFlushed(reply.token, online, old(pending.Queue()), syncReply) ==> pending.entry == old(pending.entry))
    {
      var error := ClientError(username, password, confirmPassword);
      if error.Some? {
        return Invalid(error.value);
      }
      loading := true;
      match reply {
        case ReplyThrew =>
          outcome := ConnectionError;
        case ReplyFailed(message) =>
          outcome := Refused(TextOr(message, SignupFailedMessage));
        case ReplySucceeded(user, token) =>
          store.SetUser(Some(user));
          store.SetToken(Some(token));
          store.SetAuthenticated(true);
          var synced := store.InitialSync(pending, online, syncReply, loadReply);
          outcome := SignedUp;
      }
      loading := false;
    }
  }
}
