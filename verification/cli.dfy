/** The body of `main`: the configuration it assembles from the parsed
    command line, the `GITHUB_TOKEN` environment variable and the origin URL,
    and the one release-creation call it makes with it. Argument parsing
    itself is not modelled: the parsed options are a map from argument name to
    value. */
module Cli {
  import opened Wrappers
  import opened Strings
  import opened Errors
  import opened GitConfig
  import opened Github

  /** Parsed options: the name of each argument given to its value. */
  type Options = map<string, string>

  /** The argument names the command line declares; every key of the parsed
      options is one of them. */
  const DeclaredArguments: set<string> :=
    {"tag", "packages", "commit", "token", "title", "body", "draft", "prerelease"}

  /** Everything `main` has assembled when it calls `create_release`. */
  datatype Config = Config(owner: string, repo: string, token: string, release: ReleaseRequest)

  /** `matches.value_of(name)`: the value given for the argument, or nothing
      when it was not given. */
  function ValueOf(opts: Options, name: string): (v: Option<string>)
    ensures v.Some? <==> name in opts
    ensures v.Some? ==> v.value == opts[name]
  {
    if name in opts then Some(opts[name]) else None
  }

  /** The token: the flag when it is given, otherwise the environment variable,
      otherwise the run stops with the missing-token message. */
  function ResolveToken(flag: Option<string>, env: Option<string>): (r: Result<string, Error>)
    ensures r.Success? <==> flag.Some? || env.Some?
    ensures flag.Some? ==> r == Success(flag.value)
    ensures flag.None? && env.Some? ==> r == Success(env.value)
    ensures r.Failure? ==> r.error == MissingToken
  {
    match flag
    case Some(t) => Success(t)
    case None =>
      match env
      case Some(t) => Success(t)
      case None => Failure(MissingToken)
  }

  /** `Display` of a `bool`. */
  function ShowBool(b: bool): string {
    if b then "true" else "false"
  }

  /** `bool::from_str`: accepts exactly the two renderings of a `bool`. */
  function ParseBool(s: string): (r: Result<bool, Error>)
    ensures r.Success? <==> s == "true" || s == "false"
    ensures r.Success? ==> ShowBool(r.value) == s
    ensures r.Failure? ==> r.error == InvalidBool(s)
  {
    if s == "true" then Success(true)
    else if s == "false" then Success(false)
    else Failure(InvalidBool(s))
  }

  lemma ParseBoolRoundTrip(b: bool)
    ensures ParseBool(ShowBool(b)) == Success(b)
  {
  }

  /** A `true`/`false` option: `false` when absent, otherwise its parsed value. */
  function BoolOption(opts: Options, name: string): (r: Result<bool, Error>)
    ensures name !in opts ==> r == Success(false)
    ensures name in opts ==> (r.Success? <==> opts[name] == "true" || opts[name] == "false")
    ensures name in opts && r.Success? ==> r.value == (opts[name] == "true")
  {
    ParseBool(ValueOf(opts, name).GetOr("false"))
  }

  /** The configuration `main` assembles, in the order it reads it: the tag and
      the packages argument (both required, so always present), the origin
      URL, the token, then `draft` and `prerelease`. The release's commitish
      and name are looked up under `target_commitish` and `name` and default
      to the empty string, as does its body. */
  function Configure(opts: Options, env: Option<string>, gitStdout: string): (r: Result<Config, Error>)
    requires "tag" in opts && "packages" in opts
    ensures ReadGitconfig(gitStdout).Failure? ==> r == Failure(OriginUrl)
    ensures ReadGitconfig(gitStdout).Success? && "token" !in opts && env.None? ==>
              r == Failure(MissingToken)
    ensures r.Success? ==> ReadGitconfig(gitStdout) == Success((r.value.owner, r.value.repo))
    ensures r.Success? ==> r.value.token == (if "token" in opts then opts["token"] else env.value)
    ensures r.Success? ==> r.value.release.tagName == opts["tag"]
    ensures r.Success? ==> r.value.release.draft == ("draft" in opts && opts["draft"] == "true")
    ensures r.Success? ==>
              r.value.release.prerelease == ("prerelease" in opts && opts["prerelease"] == "true")
    ensures r.Success? ==> r.value.release.body == (if "body" in opts then opts["body"] else "")
    ensures r.Success? ==>
              && r.value.release.targetCommitish == ValueOf(opts, "target_commitish").GetOr("")
              && r.value.release.name == ValueOf(opts, "name").GetOr("")
    ensures r.Success? <==>
              && ReadGitconfig(gitStdout).Success?
              && ("token" in opts || env.Some?)
              && BoolOption(opts, "draft").Success?
              && BoolOption(opts, "prerelease").Success?
    ensures ReadGitconfig(gitStdout).Success? && ("token" in opts || env.Some?) &&
            BoolOption(opts, "draft").Failure? ==>
              r == Failure(InvalidBool(opts["draft"]))
    ensures ReadGitconfig(gitStdout).Success? && ("token" in opts || env.Some?) &&
            BoolOption(opts, "draft").Success? && BoolOption(opts, "prerelease").Failure? ==>
              r == Failure(InvalidBool(opts["prerelease"]))
  {
    var tag := opts["tag"];
    var origin :- ReadGitconfig(gitStdout);
    var token :- ResolveToken(ValueOf(opts, "token"), env);
    var draft :- BoolOption(opts, "draft");
    var prerelease :- BoolOption(opts, "prerelease");
    var release := ReleaseRequest(
      tag,
      ValueOf(opts, "target_commitish").GetOr(""),
      ValueOf(opts, "name").GetOr(""),
      ValueOf(opts, "body").GetOr(""),
      draft,
      prerelease);
    Success(Config(origin.0, origin.1, token, release))
  }

  /** One run of the program: configure, then create the release. The
      `create_release` exchange and the decoding of its body are inputs. */
  function Run(opts: Options, env: Option<string>, gitStdout: string,
               ex: Exchange, decoded: Result<nat, string>): (t: Trace<nat>)
    requires "tag" in opts && "packages" in opts
    ensures |t.sent| <= 1
    ensures Configure(opts, env, gitStdout).Failure? ==>
              t == Trace([], Failure(Configure(opts, env, gitStdout).error))
    ensures t.result.Success? ==>
              decoded == Success(t.result.value) && ex.Response? && ex.status == CreatedStatus
    ensures Configure(opts, env, gitStdout).Success? ==>
              (t.result.Success? <==> ex.Response? && ex.status == CreatedStatus && decoded.Success?)
    ensures Configure(opts, env, gitStdout).Success? && ex.Response? && ex.status != CreatedStatus ==>
              t.result == Failure(Rejected(CreateReleaseFailure + ex.body))
  {
    match Configure(opts, env, gitStdout)
    case Failure(e) => Trace([], Failure(e))
    case Success(c) => CreateRelease(c.owner, c.repo, c.token, c.release, ex, decoded)
  }

  /** The process exit status: `main` returning an error and the explicit
      `exit(1)` on a missing token both end the process with status 1. */
  function ExitCode<T>(t: Trace<T>): (code: nat)
    ensures code == 0 <==> t.result.Success?
    ensures code <= 1
  {
    if t.result.Success? then 0 else 1
  }

  /* ---------------------------------------------------------------------- */
  /* Properties of a run                                                     */
  /* ---------------------------------------------------------------------- */

  /** A token given on the command line wins: the environment is not consulted. */
  lemma TokenFlagIgnoresEnvironment(opts: Options, env1: Option<string>, env2: Option<string>,
                                    gitStdout: string)
    requires "tag" in opts && "packages" in opts && "token" in opts
    ensures Configure(opts, env1, gitStdout) == Configure(opts, env2, gitStdout)
  {
  }

  /** With a readable origin URL but no token anywhere, the run stops with
      status 1 before any request is built. */
  lemma MissingTokenSendsNothing(opts: Options, gitStdout: string, ex: Exchange,
                                 decoded: Result<nat, string>)
    requires "tag" in opts && "packages" in opts && "token" !in opts
    requires ReadGitconfig(gitStdout).Success?
    ensures Run(opts, None, gitStdout, ex, decoded) == Trace([], Failure(MissingToken))
    ensures ExitCode(Run(opts, None, gitStdout, ex, decoded)) == 1
  {
  }

  /** The origin URL is read before the token: an unreadable URL is reported
      even when no token is available either. */
  lemma OriginUrlCheckedFirst(opts: Options, env: Option<string>, gitStdout: string,
                              ex: Exchange, decoded: Result<nat, string>)
    requires "tag" in opts && "packages" in opts
    requires ReadGitconfig(gitStdout).Failure?
    ensures Run(opts, env, gitStdout, ex, decoded) == Trace([], Failure(OriginUrl))
  {
  }

  /** Options as the declared command line produces them: only declared
      names, the two positional arguments present, and `draft`/`prerelease`
      restricted to their possible values. Such options always parse, and
      never carry the keys the release's commitish and name are read under. */
  predicate FromCommandLine(opts: Options)
    ensures FromCommandLine(opts) ==>
              && BoolOption(opts, "draft").Success?
              && BoolOption(opts, "prerelease").Success?
              && ValueOf(opts, "target_commitish") == None
              && ValueOf(opts, "name") == None
  {
    && opts.Keys <= DeclaredArguments
    && "tag" in opts && "packages" in opts
    && ("draft" in opts ==> opts["draft"] in {"true", "false"})
    && ("prerelease" in opts ==> opts["prerelease"] in {"true", "false"})
  }

  /** The release's commitish and name are read under keys the command line
      never declares, so `--commit` and `--title` have no effect: from a real
      command line both fields are always empty. */
  lemma CommitishAndNameAlwaysEmpty(opts: Options, env: Option<string>, gitStdout: string)
    requires FromCommandLine(opts)
    requires Configure(opts, env, gitStdout).Success?
    ensures Configure(opts, env, gitStdout).value.release.targetCommitish == ""
    ensures Configure(opts, env, gitStdout).value.release.name == ""
  {
    assert "target_commitish" !in DeclaredArguments && "name" !in DeclaredArguments;
  }

  lemma CommitAndTitleIgnored(opts: Options, commit: string, title: string,
                              env: Option<string>, gitStdout: string)
    requires "tag" in opts && "packages" in opts
    ensures Configure(opts["commit" := commit]["title" := title], env, gitStdout)
         == Configure(opts, env, gitStdout)
  {
    var opts' := opts["commit" := commit]["title" := title];
    assert forall k :: k != "commit" && k != "title" ==> (k in opts' <==> k in opts);
    assert ValueOf(opts', "target_commitish") == ValueOf(opts, "target_commitish");
    assert ValueOf(opts', "name") == ValueOf(opts, "name");
    assert ValueOf(opts', "body") == ValueOf(opts, "body");
    assert ValueOf(opts', "token") == ValueOf(opts, "token");
    assert BoolOption(opts', "draft") == BoolOption(opts, "draft");
    assert BoolOption(opts', "prerelease") == BoolOption(opts, "prerelease");
  }

  /** From a real command line the boolean options always parse, so a run can
      only fail before the request on the origin URL or the token. */
  lemma CommandLineFailsOnlyOnOriginOrToken(opts: Options, env: Option<string>, gitStdout: string)
    requires FromCommandLine(opts)
    ensures Configure(opts, env, gitStdout).Failure? ==>
              Configure(opts, env, gitStdout).error in {OriginUrl, MissingToken}
  {
  }

  /** A configured run sends exactly one request, to the releases URL of the
      repository named by the origin URL, carrying the resolved token and the
      assembled release. */
  lemma RunCreatesReleaseOfOrigin(opts: Options, env: Option<string>, gitStdout: string,
                                  ex: Exchange, decoded: Result<nat, string>)
    requires "tag" in opts && "packages" in opts
    requires Configure(opts, env, gitStdout).Success?
    ensures var c := Configure(opts, env, gitStdout).value;
            var t := Run(opts, env, gitStdout, ex, decoded);
            && |t.sent| == 1
            && Split(t.sent[0].url, '/') == ApiRepos + [c.owner, c.repo, "releases"]
            && TokenOf(HeaderValue(t.sent[0].headers, "Authorization").value) == Some(c.token)
            && t.sent[0].payload == Json(c.release)
  {
    var c := Configure(opts, env, gitStdout).value;
    ReleasesUrlSegments(c.owner, c.repo);
  }

  /** End to end: from the usual HTTPS remote and a `--token`, the run posts
      to `/repos/{owner}/{name}/releases` and returns the id the service
      assigned. */
  lemma HttpsRemoteRun(owner: string, name: string, tag: string, packages: string, token: string,
                       env: Option<string>, body: string, id: nat)
    requires '/' !in owner && '/' !in name && !EndsWith(name, GitSuffix)
    ensures var opts := map["tag" := tag, "packages" := packages, "token" := token];
            var t := Run(opts, env, HttpsUrl(owner, name + GitSuffix) + "\n",
                         Response(CreatedStatus, body), Success(id));
            && t.sent == [Post(ReleasesUrl(owner, name), [Header("Authorization", "token " + token)],
                               Json(ReleaseRequest(tag, "", "", "", false, false)))]
            && t.result == Success(id)
  {
    var opts := map["tag" := tag, "packages" := packages, "token" := token];
    var stdout := HttpsUrl(owner, name + GitSuffix) + "\n";
    HttpsRemoteOrigin(owner, name);
    ThreeOptions(opts, tag, packages, token);
    assert Configure(opts, env, stdout)
        == Success(Config(owner, name, token, ReleaseRequest(tag, "", "", "", false, false)));
  }

  lemma HttpsRemoteOrigin(owner: string, name: string)
    requires '/' !in owner && '/' !in name && !EndsWith(name, GitSuffix)
    ensures ReadGitconfig(HttpsUrl(owner, name + GitSuffix) + "\n") == Success((owner, name))
  {
    assert AllWhitespace("\n");
    HttpsRemote([], owner, name, "\n");
    assert [] + HttpsUrl(owner, name + GitSuffix) + "\n" == HttpsUrl(owner, name + GitSuffix) + "\n";
  }

  lemma ThreeOptions(opts: Options, tag: string, packages: string, token: string)
    requires opts == map["tag" := tag, "packages" := packages, "token" := token]
    ensures opts.Keys == {"tag", "packages", "token"}
    ensures ValueOf(opts, "token") == Some(token) && opts["tag"] == tag
    ensures ValueOf(opts, "draft") == None && ValueOf(opts, "prerelease") == None
    ensures ValueOf(opts, "target_commitish") == None && ValueOf(opts, "name") == None
    ensures ValueOf(opts, "body") == None
  {
  }
}
