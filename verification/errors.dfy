/** The program's errors. The source erases every error into one boxed trait
    object, which `main` hands back to the runtime to print in its `Debug`
    form; the model keeps the errors apart so that each failure path can be
    named, and does not model the printed text. */
module Errors {

  datatype Error =
    /** The remote URL had no owner or no repository segment. */
    | OriginUrl
    /** Neither the `--token` flag nor `GITHUB_TOKEN` supplied a token. */
    | MissingToken
    /** `bool::from_str` was given something other than `true` or `false`. */
    | InvalidBool(input: string)
    /** The HTTP exchange itself failed (connection, DNS, reading the body). */
    | Transport(description: string)
    /** The service answered with a status other than 201. */
    | Rejected(message: string)
    /** The 201 body of a release creation did not decode to `{ id }`; carries
        the decoder's own description. */
    | MalformedResponse(description: string)
    /** The asset file could not be read; carries the I/O error's description. */
    | FileRead(description: string)
}
