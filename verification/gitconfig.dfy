/** Reading the owner and repository name out of the `origin` remote URL, as
    printed by `git config --get remote.origin.url`. The subprocess is not part
    of the model: its standard output is the input. */
module GitConfig {
  import opened Wrappers
  import opened Strings
  import opened Errors

  /** Index of the owner among the `/`-separated segments of the URL. For
      `https://github.com/owner/repo.git` the segments are `https:`, ``,
      `github.com`, `owner` and `repo.git`. */
  const OwnerSegment: nat := 3
  const RepoSegment: nat := 4
  const GitSuffix: string := ".git"

  /** The owner is segment 3 of the trimmed URL and the repository is segment 4
      with every trailing `.git` removed; the URL must have at least four
      slashes, and both missing segments fail with the same error. Neither
      name contains a slash, and the repository never ends with `.git`. */
  function ReadGitconfig(stdout: string): (r: Result<(string, string), Error>)
    ensures r.Failure? <==> Count(Trim(stdout), '/') < 4
    ensures r.Failure? ==> r.error == OriginUrl
    ensures r.Success? ==> '/' !in r.value.0 && '/' !in r.value.1
    ensures r.Success? ==> !EndsWith(r.value.1, GitSuffix)
  {
    var url := Trim(stdout);
    var segments := Split(url, '/');
    if |segments| <= OwnerSegment then Failure(OriginUrl)
    else
      var owner := segments[OwnerSegment];
      if |segments| <= RepoSegment then Failure(OriginUrl)
      else
        var raw := segments[RepoSegment];
        var repo := TrimEndMatches(raw, GitSuffix);
        assert forall i :: 0 <= i < |repo| ==> repo[i] == raw[i];
        Success((owner, repo))
  }

  /** Independent reading of the rule: whatever the trimmed URL looks like,
      once it is written as slash-free segments, the owner is the fourth and
      the repository the fifth with its `.git` suffixes stripped. */
  lemma ReadGitconfigOfSegments(stdout: string, segments: seq<string>)
    requires |segments| >= 5
    requires forall i :: 0 <= i < |segments| ==> '/' !in segments[i]
    requires Trim(stdout) == Join(segments, '/')
    ensures ReadGitconfig(stdout)
         == Success((segments[OwnerSegment], TrimEndMatches(segments[RepoSegment], GitSuffix)))
  {
    SplitJoin(segments, '/');
  }

  /** Leading and trailing whitespace, such as the newline `git` prints after
      the URL, never changes the outcome. */
  lemma ReadGitconfigIgnoresWhitespace(w1: string, url: string, w2: string)
    requires AllWhitespace(w1) && AllWhitespace(w2)
    ensures ReadGitconfig(w1 + url + w2) == ReadGitconfig(url)
  {
    TrimIgnoresSurroundingWhitespace(w1, url, w2);
  }

  /** The usual HTTPS remote, surrounded by any whitespace (git prints a
      newline after it), yields its owner and its name without `.git`. */
  lemma HttpsRemote(w1: string, owner: string, name: string, w2: string)
    requires AllWhitespace(w1) && AllWhitespace(w2)
    requires '/' !in owner && '/' !in name && !EndsWith(name, GitSuffix)
    ensures ReadGitconfig(w1 + HttpsUrl(owner, name + GitSuffix) + w2) == Success((owner, name))
  {
    var raw := name + GitSuffix;
    HttpsUrlSegments(owner, raw);
    ReadGitconfigIgnoresWhitespace(w1, HttpsUrl(owner, raw), w2);
    StripOneGit(name);
  }

  /** `trim_end_matches` removes the suffix repeatedly, not just once. */
  lemma RepeatedGitSuffix(owner: string, name: string)
    requires '/' !in owner && '/' !in name && !EndsWith(name, GitSuffix)
    ensures ReadGitconfig(HttpsUrl(owner, name + GitSuffix + GitSuffix)) == Success((owner, name))
  {
    var raw := name + GitSuffix + GitSuffix;
    HttpsUrlSegments(owner, raw);
    StripOneGit(name);
    TrimEndMatchesStripsOnce(name + GitSuffix, GitSuffix);
  }

  function HttpsUrl(owner: string, raw: string): string {
    "https://github.com/" + owner + "/" + raw
  }

  lemma HttpsUrlSegments(owner: string, raw: string)
    requires '/' !in owner && '/' !in raw
    requires raw == [] || !IsWhitespace(raw[|raw| - 1])
    ensures ReadGitconfig(HttpsUrl(owner, raw)) == Success((owner, TrimEndMatches(raw, GitSuffix)))
  {
    var url := HttpsUrl(owner, raw);
    var segments := ["https:", "", "github.com", owner, raw];
    HttpsUrlJoins(owner, raw);
    HttpsUrlTrimmed(owner, raw);
    TrimFixesTrimmed(url);
    UrlLiteralsSlashFree();
    assert forall i :: 0 <= i < |segments| ==> '/' !in segments[i] by {
      forall i | 0 <= i < |segments|
        ensures '/' !in segments[i]
      {
        if i == 0 {} else if i == 1 {} else if i == 2 {} else if i == 3 {} else {}
      }
    }
    ReadGitconfigOfSegments(url, segments);
  }

  lemma HttpsUrlJoins(owner: string, raw: string)
    ensures Join(["https:", "", "github.com", owner, raw], '/') == HttpsUrl(owner, raw)
  {
    JoinFive(["https:", "", "github.com", owner, raw]);
    HttpsPrefix();
  }

  lemma HttpsPrefix()
    ensures "https:" + "/" + "" + "/" + "github.com" + "/" == "https://github.com/"
  {
  }

  lemma HttpsUrlTrimmed(owner: string, raw: string)
    requires raw == [] || !IsWhitespace(raw[|raw| - 1])
    ensures Trimmed(HttpsUrl(owner, raw))
  {
    var url := HttpsUrl(owner, raw);
    assert url[0] == 'h';
    assert raw == [] ==> url[|url| - 1] == '/';
    assert raw != [] ==> url[|url| - 1] == raw[|raw| - 1];
  }

  /** An scp-style remote (`git@host:owner/name.git`) has a single slash and
      is rejected. */
  lemma ScpStyleRemoteRejected(host: string, owner: string, name: string)
    requires '/' !in host && '/' !in owner && '/' !in name
    ensures ReadGitconfig("git@" + host + ":" + owner + "/" + name + GitSuffix) == Failure(OriginUrl)
  {
    var first := "git@" + host + ":" + owner;
    var second := name + GitSuffix;
    var url := first + "/" + second;
    assert "git@" + host + ":" + owner + "/" + name + GitSuffix == url;
    UrlLiteralsSlashFree();
    NotInAppend('/', "git@", host);
    NotInAppend('/', "git@" + host, ":");
    NotInAppend('/', "git@" + host + ":", owner);
    NotInAppend('/', name, GitSuffix);
    assert Trimmed(url) by {
      assert url[0] == 'g';
      assert url[|url| - 1] == second[|second| - 1] == 't';
    }
    TrimFixesTrimmed(url);
    assert Join([first, second], '/') == url;
    SplitJoin([first, second], '/');
  }

  lemma UrlLiteralsSlashFree()
    ensures '/' !in "https:" && '/' !in "github.com"
    ensures '/' !in "git@" && '/' !in ":" && '/' !in GitSuffix
  {
  }

  lemma StripOneGit(name: string)
    requires !EndsWith(name, GitSuffix)
    ensures TrimEndMatches(name + GitSuffix, GitSuffix) == name
    ensures '/' !in name ==> '/' !in name + GitSuffix && '/' !in name + GitSuffix + GitSuffix
    ensures (name + GitSuffix)[|name + GitSuffix| - 1] == 't'
    ensures (name + GitSuffix + GitSuffix)[|name + GitSuffix + GitSuffix| - 1] == 't'
  {
    TrimEndMatchesStripsOnce(name, GitSuffix);
    var n := |name|;
    assert name[..n] == name;
    TrimEndMatchesUnique(name, GitSuffix, n);
  }

  lemma JoinFive(p: seq<string>)
    requires |p| == 5
    ensures Join(p, '/') == p[0] + "/" + p[1] + "/" + p[2] + "/" + p[3] + "/" + p[4]
  {
    var q3 := p[3..];
    assert q3[1..] == [p[4]];
    JoinStep(q3, '/');
    JoinStep(p[2..], '/');
    JoinStep(p[1..], '/');
    JoinStep(p, '/');
    assert p[1..][1..] == p[2..] && p[2..][1..] == q3;
  }
}
