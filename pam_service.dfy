/** The PAM module built from pam/src/lib.rs: `authenticate` and
    `open_session` run face verification for the user PAM names; the other
    hooks do nothing.

    `cmd_auth` is a parameter, so that the mapping can be stated for any
    verification outcome; `AuthWithRecognition` plugs in the model of
    `cmd_auth` itself. */
module PamService {
  import opened Environment
  import opened Pamsm
  import Configuration
  import Recognition

  /** `auth`: an absent user is unknown and a failed lookup passes its code
      through, both without verifying; a non-UTF-8 name panics (`unwrap`);
      otherwise only a verification that returned true is a success, and a
      false or an error is an authentication error. */
  function Auth(lookup: UserLookup, cmdAuth: string -> Result<bool>): (r: HookOutcome)
    ensures lookup == NoUser ==> r == Returns(UserUnknown)
    ensures lookup.LookupFailed? ==> r == Returns(lookup.code)
    ensures lookup == Found(NotUtf8) ==> r == Panics
    ensures r == Returns(Success) <==>
      lookup.Found? && lookup.name.Utf8? && cmdAuth(lookup.name.text) == Ok(true)
    ensures lookup.Found? && lookup.name.Utf8? ==>
      r == Returns(if cmdAuth(lookup.name.text) == Ok(true) then Success else AuthErr)
  {
    match lookup
    case NoUser => Returns(UserUnknown)
    case LookupFailed(e) => Returns(e)
    case Found(name) =>
      match name
      case NotUtf8 => Panics
      case Utf8(user) =>
        match cmdAuth(user)
        case Err(_) => Returns(AuthErr)
        case Ok(worked) => if worked then Returns(Success) else Returns(AuthErr)
  }

  /** Without a user, verification is never run: the outcome is the same
      whatever `cmd_auth` would have said. */
  lemma NoUserSkipsVerification(lookup: UserLookup, a1: string -> Result<bool>, a2: string -> Result<bool>)
    requires lookup.NoUser? || lookup.LookupFailed?
    ensures Auth(lookup, a1) == Auth(lookup, a2)
  {
  }

  function OpenSession(lookup: UserLookup, cmdAuth: string -> Result<bool>): HookOutcome {
    Auth(lookup, cmdAuth)
  }

  function Authenticate(lookup: UserLookup, cmdAuth: string -> Result<bool>): HookOutcome {
    Auth(lookup, cmdAuth)
  }

  function CloseSession(lookup: UserLookup): PamError {
    Ignore
  }

  function SetCred(lookup: UserLookup): PamError {
    Ignore
  }

  function AcctMgmt(lookup: UserLookup): PamError {
    Ignore
  }

  function ChAuthTok(lookup: UserLookup): PamError {
    Ignore
  }

  /** Opening a session and authenticating agree on every input; the four
      other hooks always ignore the request. */
  lemma HooksAgree(lookup: UserLookup, cmdAuth: string -> Result<bool>)
    ensures OpenSession(lookup, cmdAuth) == Authenticate(lookup, cmdAuth)
    ensures CloseSession(lookup) == SetCred(lookup) == AcctMgmt(lookup) == ChAuthTok(lookup) == Ignore
  {
  }

  /** The hook with the model of `cmd_auth` plugged in. */
  function AuthWithRecognition(lookup: UserLookup, cfg: Configuration.Config, retries: nat, host: Host,
                               store: Recognition.Store, cosine: Cosine): HookOutcome
  {
    Auth(lookup, (u: string) => Recognition.Auth(cfg, retries, host, store, u, cosine).result)
  }

  /** PAM grants access only when the named user's reference loaded and, among
      the first `retries` frames of the active camera, one passed both tests
      after every earlier one had been rejected. */
  lemma SuccessNeedsAcceptedFrame(lookup: UserLookup, cfg: Configuration.Config, retries: nat, host: Host,
                                  store: Recognition.Store, cosine: Cosine)
    requires AuthWithRecognition(lookup, cfg, retries, host, store, cosine) == Returns(Success)
    ensures lookup.Found? && lookup.name.Utf8?
    ensures var setup := Recognition.Prepare(cfg, host, store, lookup.name.text, cosine);
      && setup.Ok?
      && exists k :: 0 <= k < retries && Recognition.Attempt(setup.value, k) == Recognition.Accept
           && forall j :: 0 <= j < k ==> Recognition.Attempt(setup.value, j) == Recognition.Reject
  {
    var user := lookup.name.text;
    var setup := Recognition.Prepare(cfg, host, store, user, cosine);
    assert Recognition.Auth(cfg, retries, host, store, user, cosine).result == Ok(true);
    var s := setup.value;
    Recognition.AuthStopsAtFirstDecisive(s, retries, 0);
    var k := Recognition.AuthFrom(s, retries, 0).framesRead - 1;
    assert Recognition.Attempt(s, k) == Recognition.Accept;
  }
}
