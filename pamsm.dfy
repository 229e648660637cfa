/** The part of the PAM service-module library that the hooks use: result
    codes, the user lookup, and what a hook call comes to. */
module Pamsm {

  /** PAM result codes: the ones the hooks return by name, and any other
      code a failed lookup may carry. */
  datatype PamError = Success | UserUnknown | AuthErr | Ignore | OtherCode(code: int)

  /** The user name PAM hands over, which may not be valid UTF-8. */
  datatype UserName = Utf8(text: string) | NotUtf8

  /** A code the library reports as an error: anything but success. */
  type FailureCode = c: PamError | !c.Success? witness AuthErr

  /** `get_user`: a name, no name, or a PAM error. */
  datatype UserLookup = Found(name: UserName) | NoUser | LookupFailed(code: FailureCode)

  /** A hook either returns a code or panics. */
  datatype HookOutcome = Returns(code: PamError) | Panics
}
