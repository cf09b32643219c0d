# rgh: a verified model of release creation

`rgh` is a small command-line tool. It creates a GitHub release for the
repository in the current directory. It works in four steps:

1. It reads the `origin` remote URL with `git config --get remote.origin.url`.
2. It takes the owner and the repository name from that URL.
3. It picks the API token:
   - the `--token` flag when it is given;
   - otherwise the `GITHUB_TOKEN` environment variable;
   - otherwise it stops.
4. It parses the `--draft` and `--prerelease` switches and POSTs the release
   to `https://api.github.com/repos/{owner}/{repo}/releases`. Only a
   `201 Created` response counts as success.

An `upload_asset` call is also defined. It POSTs a file to the uploads host,
with its byte count as `content-length`.

The model has one module per concern:

- `Strings` models the Rust string operations the URL parsing depends on.
  `str::trim` uses Unicode White_Space. `split('/')` and `trim_end_matches`
  are also modelled. Each operation has an independent characterisation,
  with the lemmas that tie the two together:
  - `Trim` is the unique trimmed core between two whitespace runs.
  - `Split` is the inverse of `Join`.
  - `TrimEndMatches` is the unique prefix that does not end with the pattern
    and is followed only by copies of it.
- `Decimal` models `format!("{}", n)` for the `usize` release id and byte
  count, together with the parser that undoes it.
- `GitConfig` models `read_gitconfig` on the subprocess's standard output.
- `Github` models both API calls as the requests they send and the status
  rule they apply. The HTTP exchange is an input.
- `Cli` models the body of `main`: the configuration it assembles, the run,
  and the exit status.
- `Errors` and `Wrappers` hold the error values and `Option`/`Result`.

Some facts about the source that the model keeps as they are:

- The release's `target_commitish` and `name` are read under the keys
  `target_commitish` and `name`. The command line declares `commit` and
  `title` instead. So from a real command line both fields are always empty,
  and `--commit` and `--title` have no effect (`Cli.CommitishAndNameAlwaysEmpty`,
  `Cli.CommitAndTitleIgnored`).
- The origin URL is read before the token is looked up. An unreadable URL is
  therefore reported even when no token is available (`Cli.OriginUrlCheckedFirst`).
- The URL is split purely by position:
  - an scp-style remote `git@host:owner/name.git` has only one slash, so it
    is rejected (`GitConfig.ScpStyleRemoteRejected`);
  - `https://github.com/owner/` is accepted with an empty repository name
    (`GitConfig.ReadGitconfig` permits it, since only the slash count matters).
- The `packages` argument is declared as "upload packages dir or file"
  (src/main.rs:93-95). `main` reads it and never uses it, and
  `upload_asset` is defined but never called. `Github.UploadAsset` models the
  function on its own. `Cli.Run` makes only the release-creation call.

## Model

| member | source | states |
|---|---|---|
| GitConfig.ReadGitconfig | src/main.rs:69-82 | Fails exactly when the trimmed URL has fewer than four slashes, with the single "Reading of origin url failed" error. On success neither the owner nor the repository contains a slash, and the repository never ends with `.git`. |
| GitConfig.ReadGitconfigOfSegments | src/main.rs:71-80 | When the trimmed URL is the `/`-join of five or more slash-free segments, the owner is segment 3 and the repository is segment 4 with its trailing `.git` stripped. |
| GitConfig.ReadGitconfigIgnoresWhitespace | src/main.rs:69 | Whitespace before or after the URL, including git's trailing newline, never changes the result. |
| GitConfig.HttpsRemote | src/main.rs:69-82 | `https://github.com/{owner}/{name}.git` surrounded by any whitespace yields `(owner, name)`. |
| GitConfig.RepeatedGitSuffix | src/main.rs:76-80 | A repository segment ending in `.git.git` loses both suffixes. |
| GitConfig.ScpStyleRemoteRejected | src/main.rs:71-74 | An scp-style remote `git@host:owner/name.git` fails with the origin-URL error. |
| Strings.Trim | src/main.rs:69 | The result is no longer than the input, and it neither starts nor ends with White_Space. |
| Strings.TrimDecomposes | src/main.rs:69 | The input is a whitespace run, then the trimmed result, then a whitespace run. |
| Strings.TrimUnique | src/main.rs:69 | A trimmed string between two whitespace runs is what `Trim` returns, so `Trim` is characterised independently of its scan. |
| Strings.TrimIgnoresSurroundingWhitespace | src/main.rs:69 | Adding whitespace on either side does not change the trimmed result. |
| Strings.TrimIdempotent | src/main.rs:69 | Trimming twice is trimming once. |
| Strings.Split | src/main.rs:71-73 | There is one more segment than separators, no segment contains the separator, and joining the segments gives the input back. |
| Strings.SplitJoin | src/main.rs:71-73 | Splitting the join of separator-free segments gives the segments back. |
| Strings.TrimEndMatches | src/main.rs:80 | The result is a prefix of the input that does not end with the pattern, and the part removed is whole copies of the pattern. |
| Strings.TrimEndMatchesUnique | src/main.rs:80 | Any prefix with those two properties is the result, so the suffix is stripped repeatedly and no further. |
| Strings.TrimEndMatchesStripsOnce | src/main.rs:80 | Appending one copy of the pattern does not change the result. |
| Strings.TrimEndMatchesIdempotent | src/main.rs:80 | Stripping twice is stripping once. |
| Decimal.Show | src/github.rs:65 | The rendering is a canonical numeral: digits only, and no leading zero unless the number is zero. |
| Decimal.ParseShow | src/github.rs:65 | Reading the rendering back gives the number. |
| Decimal.ShowParse | src/github.rs:65 | Every canonical numeral is the rendering of its value, so rendering is a bijection onto canonical numerals. |
| Decimal.ShowInjective | src/github.rs:58-61 | Distinct release ids give distinct id segments. |
| Github.Authorization | src/github.rs:28 | The `Authorization` value carries the token: reading it back after the `token ` scheme gives the token unchanged. |
| Github.ReleasesUrl | src/github.rs:29 | The release URL is the slash-join of `https:`, ``, `api.github.com`, `repos`, the owner, the repository and `releases`. |
| Github.UploadUrl | src/github.rs:58-61 | The upload URL is the slash-join of `https:`, ``, `uploads.github.com`, `repos`, the owner, the repository, `releases`, the decimal id and `assets?name=` followed by the rendered file name. |
| Github.ReleasesUrlSegments | src/github.rs:29 | The release URL splits into the API host path `https:`, ``, `api.github.com`, `repos`, then the owner, the repository and `releases`. |
| Github.UploadUrlSegments | src/github.rs:58-61 | The upload URL splits into the uploads host path, then the owner, the repository, `releases`, the decimal id and `assets?name=…`, and the id segment parses back to the release id. |
| Github.CreateReleaseRequest | src/github.rs:28-33 | The request goes to the release URL, carries the `token {token}` authorisation, and has the release as its JSON body. |
| Github.UploadRequest | src/github.rs:54-70 | The request goes to the upload URL for the release id and file name, carries the `token {token}` authorisation and a `content-length` that is a canonical numeral whose value is the byte count, and it sends the file. |
| Github.SameAuthorization | src/github.rs:28-64 | Both calls present the same `Authorization` value for the same token. |
| Github.ExpectCreated | src/github.rs:36-44 | Succeeds exactly on status 201 and hands on the body. Any other status fails with the given prefix followed by the body, and a transport fault fails with its description. |
| Github.CreateRelease | src/github.rs:22-45 | Sends exactly the release request. It succeeds exactly on 201 with a decodable body, returning the decoded id. Any other status fails with "Failed create_release: response is " and the body. |
| Github.UploadAsset | src/github.rs:47-82 | A failed file read sends nothing. Otherwise it sends exactly the upload request, and succeeds exactly on 201. Any other status fails with "Failed upload_assets: response is " and the body. |
| Cli.ResolveToken | src/main.rs:23-34 | The flag wins, then the environment variable. With neither, the result is the missing-token error. |
| Cli.ParseBool | src/main.rs:35-36 | Accepts exactly `true` and `false`, and the parsed value renders back to the input. Anything else gives the `bool` parse error for that input. |
| Cli.ParseBoolRoundTrip | src/main.rs:35-36 | Parsing the rendering of a boolean gives the boolean back. |
| Cli.BoolOption | src/main.rs:35-36 | An absent option is `false`. A present one succeeds exactly when it is `true` or `false`, and is true exactly when it is `true`. |
| Cli.ValueOf | src/main.rs:40-45 | An argument has a value exactly when it was given, and the value is the one given. |
| Cli.FromCommandLine | src/main.rs:91-134 | Options the declared command line produces always have parseable `draft` and `prerelease` values, and never carry the `target_commitish` or `name` keys. |
| Cli.Configure | src/main.rs:18-48 | Succeeds exactly when the origin URL is readable, a token is available, and both boolean options parse. The failures come in source order: an unreadable URL first, then the missing token, then `draft`'s parse error, then `prerelease`'s. On success: the owner and repository are the origin's; the token follows flag-then-environment; the tag is copied; the draft and prerelease flags are true exactly when given as `true`; the commitish, name and body are the values under their keys, or empty. |
| Cli.TokenFlagIgnoresEnvironment | src/main.rs:23-24 | With `--token` given, the environment does not affect the configuration. |
| Cli.MissingTokenSendsNothing | src/main.rs:25-33 | With a readable URL and no token anywhere, nothing is sent and the exit status is 1. |
| Cli.OriginUrlCheckedFirst | src/main.rs:21-34 | An unreadable origin URL stops the run with the origin-URL error before the token is consulted, and nothing is sent. |
| Cli.CommitishAndNameAlwaysEmpty | src/main.rs:40-44 | From a declared command line, the release's commitish and name are always empty. |
| Cli.CommitAndTitleIgnored | src/main.rs:40-44 | Adding or changing `--commit` and `--title` never changes the configuration. |
| Cli.CommandLineFailsOnlyOnOriginOrToken | src/main.rs:123-134 | Because the declared command line restricts `--draft` and `--prerelease` to `true`/`false`, configuration can fail only on the origin URL or the token. |
| Cli.Run | src/main.rs:50-57 | At most one request is sent. A configuration failure sends nothing and is the run's result. A configured run succeeds exactly on a 201 response with a decodable body, returning the decoded id. Any other status fails with "Failed create_release: response is " and the body. |
| Cli.ExitCode | src/main.rs:13-31 | The exit status is 0 exactly when the run succeeded, and 1 otherwise. |
| Cli.RunCreatesReleaseOfOrigin | src/main.rs:21-55 | A configured run sends one request. Its URL addresses the origin's owner and repository, its authorisation carries the resolved token, and its body is the assembled release. |
| Cli.HttpsRemoteRun | src/main.rs:21-55 | End to end: the usual HTTPS remote plus `--token` posts the default release to `/repos/{owner}/{name}/releases` and returns the id the service assigned. |

## Left out

- The `git config` subprocess is not modelled. Its standard output is an input string.
  - A non-UTF-8 output (`from_utf8` failing) is not modelled, because the input is already text.
  - A failure to start `git`, which panics, is not modelled either.
- An unset or non-Unicode `GITHUB_TOKEN` is left out as such: both are an absent value, because `std::env::var` treats them alike for this program.
- The two lines printed before `exit(1)` are not modelled. Console output is I/O; the missing-token case is an error value with exit status 1.
- Argument parsing, help text and the declaration order of the command line are not modelled: parsed options are a map from argument name to value. `Cli.FromCommandLine` states only the restrictions the declarations impose.
- HTTP transport, `async_std` blocking and TLS are not modelled. Each call's exchange is an input: a fault, or a status with a body.
- JSON serialisation of the release and decoding of the `{ id }` response body are not modelled. The body is the `ReleaseRequest` value, and the decoding outcome is an input to `Github.CreateRelease`.
- Reading the asset file is not modelled: its outcome (byte count or error) is an input to `Github.UploadAsset`. The file name's `Debug` rendering (`{:?}` of an `OsStr`) is an input string, because it depends on Rust's escaping rules.
- Github.UploadAsset: does not model `Url::parse` normalising or rejecting the built URL, nor the panic of `file_name().unwrap()` on a path without a file name. Both depend on library behaviour outside this program.
- Github.UploadAsset: treats the file as read once. `body_file(filepath)` opens it a second time, and if that fails nothing is sent; the model folds that failure into the single `fileSize` outcome.
- Github.CreateRelease: the URL is the one the program formats. `surf::post` parses it before sending, which normalises `..`, `\`, `?` and `#` appearing in the owner or repository. That parsing belongs to the HTTP library.
- The text printed for an error is not modelled. `main` returns the boxed error and the runtime prints its `Debug` form (for example `Error: "Reading of origin url failed"`); the model keeps the error values only.
- Decimal.Show: does not model the `usize` width of the release id and byte count, because values are unbounded naturals, and no arithmetic is done on them.
- Reading the status body for a non-201 response can itself fail. That failure is folded into the `Fault` exchange.
- Uploading the contents of `packages` is not modelled, because the code never does it: the argument is read and unused, and no caller invokes `upload_asset`.
