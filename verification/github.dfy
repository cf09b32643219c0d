/** The two calls to the GitHub REST API: creating a release and uploading an
    asset to it. The HTTP client is not part of the model: a call is the request
    it would send, and the exchange that follows is an input, either a
    transport fault or a response status with its body. */
module Github {
  import opened Wrappers
  import opened Strings
  import opened Decimal
  import opened Errors

  /** The JSON body of a release creation. */
  datatype ReleaseRequest = ReleaseRequest(
    tagName: string,
    targetCommitish: string,
    name: string,
    body: string,
    draft: bool,
    prerelease: bool)

  datatype Header = Header(name: string, value: string)

  /** What a POST carries: a release serialised as JSON, or a file's bytes. */
  datatype Payload = Json(release: ReleaseRequest) | FileContents(path: string)

  datatype HttpRequest = Post(url: string, headers: seq<Header>, payload: Payload)

  /** How an HTTP exchange ended. */
  datatype Exchange = Fault(description: string) | Response(status: nat, body: string)

  /** The requests a call sent, in order, and what it returned. */
  datatype Trace<T> = Trace(sent: seq<HttpRequest>, result: Result<T, Error>)

  /** HTTP 201 Created: the only status either call accepts. */
  const CreatedStatus: nat := 201

  const CreateReleaseFailure: string := "Failed create_release: response is "
  const UploadAssetFailure: string := "Failed upload_assets: response is "
  const TokenScheme: string := "token "

  /** Path segments of the API endpoints up to the owner. */
  const ApiRepos: seq<string> := ["https:", "", "api.github.com", "repos"]
  const UploadsRepos: seq<string> := ["https:", "", "uploads.github.com", "repos"]

  /* ---------------------------------------------------------------------- */
  /* Headers                                                                 */
  /* ---------------------------------------------------------------------- */

  /** The value of the first header called `name`, if any. */
  function HeaderValue(headers: seq<Header>, name: string): Option<string> {
    if headers == [] then None
    else if headers[0].name == name then Some(headers[0].value)
    else HeaderValue(headers[1..], name)
  }

  /** How the service reads an `Authorization` value: the token after the
      `token ` scheme, if the value uses that scheme. */
  function TokenOf(value: string): (t: Option<string>)
    ensures t.Some? ==> TokenScheme + t.value == value
    ensures t.None? ==> !(|value| >= |TokenScheme| && value[..|TokenScheme|] == TokenScheme)
  {
    if |value| >= |TokenScheme| && value[..|TokenScheme|] == TokenScheme
    then Some(value[|TokenScheme|..]) else None
  }

  /** The `Authorization` value for a personal access token. Every token
      survives the trip through the header: the service reads back exactly
      the token it was given. */
  function Authorization(token: string): (v: string)
    ensures TokenOf(v) == Some(token)
  {
    var v := TokenScheme + token;
    assert v[..|TokenScheme|] == TokenScheme;
    assert v[|TokenScheme|..] == token;
    v
  }

  /* ---------------------------------------------------------------------- */
  /* URLs                                                                    */
  /* ---------------------------------------------------------------------- */

  /** The release-creation URL: the API host path, the owner, the repository
      and `releases`, joined by slashes. */
  function ReleasesUrl(owner: string, repo: string): (url: string)
    ensures url == Join(ApiRepos + [owner, repo, "releases"], '/')
  {
    ReleasesUrlJoins(owner, repo);
    "https://api.github.com/repos/" + owner + "/" + repo + "/releases"
  }

  /** The upload URL; `nameQuery` is the `Debug` rendering of the file name
      that the source appends after `?name=`. */
  function UploadUrl(owner: string, repo: string, releaseId: nat, nameQuery: string): (url: string)
    ensures url == Join(UploadsRepos + [owner, repo, "releases", Show(releaseId), "assets?name=" + nameQuery], '/')
  {
    UploadUrlJoins(owner, repo, Show(releaseId), nameQuery);
    "https://uploads.github.com/repos/" + owner + "/" + repo + "/releases/"
      + Show(releaseId) + "/assets?name=" + nameQuery
  }

  /** The release-creation URL addresses `/repos/{owner}/{repo}/releases` on
      the API host: splitting it on `/` gives the owner and the repository
      back as whole segments. */
  lemma ReleasesUrlSegments(owner: string, repo: string)
    requires '/' !in owner && '/' !in repo
    ensures Split(ReleasesUrl(owner, repo), '/') == ApiRepos + [owner, repo, "releases"]
  {
    var all := ApiRepos + [owner, repo, "releases"];
    LiteralsSlashFree();
    SlashFreeAppend(ApiRepos, [owner, repo, "releases"]);
    SplitJoin(all, '/');
  }

  lemma ReleasesUrlJoins(owner: string, repo: string)
    ensures Join(ApiRepos + [owner, repo, "releases"], '/')
         == "https://api.github.com/repos/" + owner + "/" + repo + "/releases"
  {
    var tail := [owner, repo, "releases"];
    JoinAppend(ApiRepos, tail, '/');
    ApiReposJoin();
    JoinStep(tail, '/');
    JoinStep(tail[1..], '/');
    assert tail[1..][1..] == ["releases"];
    var h := "https://api.github.com/repos";
    assert Join(ApiRepos + tail, '/') == h + "/" + (owner + "/" + (repo + "/" + "releases"));
    assert h + "/" + (owner + "/" + (repo + "/" + "releases"))
        == (h + "/") + owner + "/" + repo + ("/" + "releases");
  }

  /** The upload URL addresses `/repos/{owner}/{repo}/releases/{id}/assets` on
      the uploads host, and the id segment reads back as the release id. */
  lemma UploadUrlSegments(owner: string, repo: string, releaseId: nat, nameQuery: string)
    requires '/' !in owner && '/' !in repo && '/' !in nameQuery
    ensures Split(UploadUrl(owner, repo, releaseId, nameQuery), '/')
         == UploadsRepos + [owner, repo, "releases", Show(releaseId), "assets?name=" + nameQuery]
    ensures Parse(Split(UploadUrl(owner, repo, releaseId, nameQuery), '/')[7]) == releaseId
  {
    var id := Show(releaseId);
    var tail := [owner, repo, "releases", id, "assets?name=" + nameQuery];
    var all := UploadsRepos + tail;
    LiteralsSlashFree();
    NotInAppend('/', "assets?name=", nameQuery);
    assert '/' !in id by {
      assert forall i :: 0 <= i < |id| ==> IsDigit(id[i]);
    }
    SlashFreeAppend(UploadsRepos, tail);
    SplitJoin(all, '/');
    assert all[7] == id;
    ParseShow(releaseId);
  }

  lemma UploadUrlJoins(owner: string, repo: string, id: string, nameQuery: string)
    ensures Join(UploadsRepos + [owner, repo, "releases", id, "assets?name=" + nameQuery], '/')
         == "https://uploads.github.com/repos/" + owner + "/" + repo + "/releases/"
            + id + "/assets?name=" + nameQuery
  {
    var last := "assets?name=" + nameQuery;
    var tail := [owner, repo, "releases", id, last];
    JoinAppend(UploadsRepos, tail, '/');
    UploadsReposJoin();
    JoinStep(tail, '/');
    JoinStep(tail[1..], '/');
    JoinStep(tail[2..], '/');
    JoinStep(tail[3..], '/');
    assert tail[1..][1..] == tail[2..] && tail[2..][1..] == tail[3..];
    assert tail[3..][1..] == [last];
    var h := "https://uploads.github.com/repos";
    assert Join(UploadsRepos + tail, '/')
        == h + "/" + (owner + "/" + (repo + "/" + ("releases" + "/" + (id + "/" + last))));
    Reassociate(h, owner, repo, "releases", id, "assets?name=", nameQuery);
    UploadsLiterals();
  }

  lemma Reassociate(h: string, o: string, r: string, rel: string, id: string, a: string, q: string)
    ensures h + "/" + (o + "/" + (r + "/" + (rel + "/" + (id + "/" + (a + q)))))
         == (h + "/") + o + "/" + r + ("/" + rel + "/") + id + ("/" + a) + q
  {
  }

  lemma SlashFreeAppend(a: seq<string>, b: seq<string>)
    requires forall i :: 0 <= i < |a| ==> '/' !in a[i]
    requires forall i :: 0 <= i < |b| ==> '/' !in b[i]
    ensures forall i :: 0 <= i < |a + b| ==> '/' !in (a + b)[i]
  {
    forall i | 0 <= i < |a + b|
      ensures '/' !in (a + b)[i]
    {
      if i < |a| {
        assert (a + b)[i] == a[i];
      } else {
        assert (a + b)[i] == b[i - |a|];
      }
    }
  }

  /* ---------------------------------------------------------------------- */
  /* The two calls                                                           */
  /* ---------------------------------------------------------------------- */

  /** The request `create_release` sends: a POST of the release as JSON to
      the releases URL, authorised with the token. */
  function CreateReleaseRequest(owner: string, repo: string, token: string,
                                release: ReleaseRequest): (req: HttpRequest)
    ensures req.url == ReleasesUrl(owner, repo)
    ensures HeaderValue(req.headers, "Authorization") == Some(Authorization(token))
    ensures req.payload == Json(release)
  {
    Post(ReleasesUrl(owner, repo), [Header("Authorization", Authorization(token))], Json(release))
  }

  /** The request `upload_asset` sends: a POST of the file's bytes to the
      upload URL, authorised with the token, declaring the byte count as a
      canonical decimal `content-length`. */
  function UploadRequest(owner: string, repo: string, token: string, releaseId: nat,
                         path: string, byteCount: nat, nameQuery: string): (req: HttpRequest)
    ensures req.url == UploadUrl(owner, repo, releaseId, nameQuery)
    ensures HeaderValue(req.headers, "Authorization") == Some(Authorization(token))
    ensures HeaderValue(req.headers, "content-length").Some?
    ensures Canonical(HeaderValue(req.headers, "content-length").value)
    ensures Parse(HeaderValue(req.headers, "content-length").value) == byteCount
    ensures req.payload == FileContents(path)
  {
    ParseShow(byteCount);
    Post(UploadUrl(owner, repo, releaseId, nameQuery),
         [Header("Authorization", Authorization(token)), Header("content-length", Show(byteCount))],
         FileContents(path))
  }

  /** The status rule both calls share: a 201 response hands on its body; any
      other status fails with `failure` followed by the body; a transport
      fault fails with its own description. */
  function ExpectCreated(ex: Exchange, failure: string): (r: Result<string, Error>)
    ensures r.Success? <==> ex.Response? && ex.status == CreatedStatus
    ensures r.Success? ==> r.value == ex.body
    ensures ex.Response? && ex.status != CreatedStatus ==>
              r == Failure(Rejected(failure + ex.body))
    ensures ex.Fault? ==> r == Failure(Transport(ex.description))
  {
    match ex
    case Fault(d) => Failure(Transport(d))
    case Response(status, body) =>
      if status != CreatedStatus then
        Failure(Rejected(failure + body))
      else Success(body)
  }

  /** `create_release`: sends one request; on a 201 response the release id is
      whatever decoding the body as `{ id }` gave (`decoded`), otherwise the
      call fails. */
  function CreateRelease(owner: string, repo: string, token: string, release: ReleaseRequest,
                         ex: Exchange, decoded: Result<nat, string>): (t: Trace<nat>)
    ensures t.sent == [CreateReleaseRequest(owner, repo, token, release)]
    ensures t.result.Success? <==> ex.Response? && ex.status == CreatedStatus && decoded.Success?
    ensures t.result.Success? ==> t.result.value == decoded.value
    ensures ex.Response? && ex.status != CreatedStatus ==>
              t.result == Failure(Rejected(CreateReleaseFailure + ex.body))
  {
    var req := CreateReleaseRequest(owner, repo, token, release);
    var result :=
      match ExpectCreated(ex, CreateReleaseFailure)
      case Failure(e) => Failure(e)
      case Success(_) =>
        match decoded
        case Success(id) => Success(id)
        case Failure(d) => Failure(MalformedResponse(d));
    Trace([req], result)
  }

  /** `upload_asset`: reading the file comes first, and when it fails nothing
      is sent; otherwise one request is sent and the call succeeds exactly
      on a 201 response. `fileSize` is the outcome of reading the file. */
  function UploadAsset(owner: string, repo: string, token: string, releaseId: nat, path: string,
                       fileSize: Result<nat, string>, nameQuery: string, ex: Exchange): (t: Trace<()>)
    ensures fileSize.Failure? ==> t == Trace([], Failure(FileRead(fileSize.error)))
    ensures fileSize.Success? ==>
              t.sent == [UploadRequest(owner, repo, token, releaseId, path, fileSize.value, nameQuery)]
    ensures t.result.Success? <==> fileSize.Success? && ex.Response? && ex.status == CreatedStatus
    ensures fileSize.Success? && ex.Response? && ex.status != CreatedStatus ==>
              t.result == Failure(Rejected(UploadAssetFailure + ex.body))
  {
    match fileSize
    case Failure(e) => Trace([], Failure(FileRead(e)))
    case Success(bytes) =>
      var req := UploadRequest(owner, repo, token, releaseId, path, bytes, nameQuery);
      var result :=
        match ExpectCreated(ex, UploadAssetFailure)
        case Failure(e) => Failure(e)
        case Success(_) => Success(());
      Trace([req], result)
  }

  /** Both calls present the same credentials. */
  lemma SameAuthorization(owner: string, repo: string, token: string, release: ReleaseRequest,
                          releaseId: nat, path: string, byteCount: nat, nameQuery: string)
    ensures HeaderValue(CreateReleaseRequest(owner, repo, token, release).headers, "Authorization")
         == HeaderValue(UploadRequest(owner, repo, token, releaseId, path, byteCount, nameQuery).headers,
                        "Authorization")
  {
  }

  lemma ApiReposJoin()
    ensures Join(ApiRepos, '/') == "https://api.github.com/repos"
    ensures "https://api.github.com/repos" + "/" == "https://api.github.com/repos/"
    ensures "/" + "releases" == "/releases"
  {
  }

  lemma UploadsReposJoin()
    ensures Join(UploadsRepos, '/') == "https://uploads.github.com/repos"
  {
  }

  lemma UploadsLiterals()
    ensures "https://uploads.github.com/repos" + "/" == "https://uploads.github.com/repos/"
    ensures "/" + "releases" + "/" == "/releases/"
    ensures "/" + "assets?name=" == "/assets?name="
  {
  }

  lemma LiteralsSlashFree()
    ensures forall i :: 0 <= i < |ApiRepos| ==> '/' !in ApiRepos[i]
    ensures forall i :: 0 <= i < |UploadsRepos| ==> '/' !in UploadsRepos[i]
    ensures '/' !in "releases" && '/' !in "assets?name="
  {
  }
}
