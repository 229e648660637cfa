/** The PAM module of src/pam.rs, which implements `authenticate` only. It
    differs from pam/src/lib.rs in two places: a non-UTF-8 user name is
    verified as the user "_", and a verification error panics instead of
    being reported as an authentication error. */
module PamVariant {
  import opened Environment
  import opened Pamsm
  import PamService

  /** The name verification runs under: the text, or "_" (`unwrap_or`). */
  function NameOrPlaceholder(name: UserName): string {
    match name
    case Utf8(text) => text
    case NotUtf8 => "_"
  }

  /** `auth` of src/pam.rs: no user and a failed lookup are handled as in
      pam/src/lib.rs; otherwise access is granted iff verification under
      the (possibly substituted) name returned true, and a verification
      error panics. */
  function Authenticate(lookup: UserLookup, cmdAuth: string -> Result<bool>): (r: HookOutcome)
    ensures lookup == NoUser ==> r == Returns(UserUnknown)
    ensures lookup.LookupFailed? ==> r == Returns(lookup.code)
    ensures r == Returns(Success) <==>
      lookup.Found? && cmdAuth(NameOrPlaceholder(lookup.name)) == Ok(true)
    ensures r == Panics <==> lookup.Found? && cmdAuth(NameOrPlaceholder(lookup.name)).Err?
    ensures lookup.Found? && cmdAuth(NameOrPlaceholder(lookup.name)) == Ok(false) ==> r == Returns(AuthErr)
  {
    match lookup
    case NoUser => Returns(UserUnknown)
    case LookupFailed(e) => Returns(e)
    case Found(name) =>
      match cmdAuth(NameOrPlaceholder(name))
      case Err(_) => Panics
      case Ok(worked) => if worked then Returns(Success) else Returns(AuthErr)
  }

  /** A name that is not UTF-8 is verified as the user "_": such a user is
      let in exactly when "_" would be. */
  lemma NonUtf8VerifiedAsPlaceholder(cmdAuth: string -> Result<bool>)
    ensures Authenticate(Found(NotUtf8), cmdAuth) == Authenticate(Found(Utf8("_")), cmdAuth)
  {
  }

  /** The two PAM modules agree except where this one panics: on a
      verification error (the other reports AUTH_ERR) and on a non-UTF-8
      name (the other panics, this one verifies "_"). */
  lemma AgreesWithService(lookup: UserLookup, cmdAuth: string -> Result<bool>)
    ensures !(lookup.Found? && lookup.name.NotUtf8?) && Authenticate(lookup, cmdAuth) != Panics ==>
      Authenticate(lookup, cmdAuth) == PamService.Auth(lookup, cmdAuth)
    ensures lookup.Found? && lookup.name.Utf8? && cmdAuth(lookup.name.text).Err? ==>
      Authenticate(lookup, cmdAuth) == Panics && PamService.Auth(lookup, cmdAuth) == Returns(AuthErr)
  {
  }
}
