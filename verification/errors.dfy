/** The sentinel errors of the `proton` package (proton/errors.go) plus a
    pass-through case for whatever the API client or the PGP library reports. */
module Errors {

  datatype Error =
    | MissingUID
    | MissingAccessToken
    | MissingRefreshToken
    | KeyNotFound
    | FileNotFound
    | NotAFolder
    | InvalidPath
      /** an error produced outside this package (network client, gopenpgp), returned unchanged */
    | External(message: string)
}
