/** The local runner script: finds the GitHub owner and repository of a git
    remote in the output of `git remote -v`, converts the polling options
    from seconds to milliseconds, pushes a throwaway branch, runs the build
    against it and deletes the branch again. Git, the build service and the
    argument parser are outside the model: their outputs and outcomes are
    parameters, and the side effects are recorded as a trace. */
module LocalRunner {
  import opened Wrappers
  import opened JsStrings

  const GitHubSSH: string := "git@github.com:"
  const GitHubHTTPS: string := "https://github.com/"
  const PushMarker: string := "(push)"

  const DefaultRemote: string := "origin"
  /** Defaults of `--update-interval` and `--update-backoff`, in seconds. */
  const DefaultUpdateInterval: real := 30.0
  const DefaultUpdateBackOff: real := 15.0

  /** The parsed command-line options the script uses; absent options take
      their defaults. `updateBackOff` is the value of `--update-backoff`. */
  datatype CliArgs = CliArgs(remote: Option<string>, updateInterval: Option<real>, updateBackOff: Option<real>)

  /** The polling configuration handed to the build, in milliseconds.
      `updateBackOff` is `None` when it is not a number (`NaN`). */
  datatype PollConfig = PollConfig(updateInterval: real, updateBackOff: Option<real>)

  /** `{ owner, repo }`; `repo` is absent when the path has no `/`. */
  datatype RepoInfo = RepoInfo(owner: string, repo: Option<string>)

  datatype GitError =
    | NoRemote(remote: string)     // the assertion on the selected line
    | MissingUrl                   // the selected line has no second field
    | Unsupported(url: string)     // neither an HTTPS nor an SSH GitHub URL
  {
    function Message(): string {
      match this
      case NoRemote(remote) => "No remote found named " + remote
      case MissingUrl => "Cannot read properties of undefined (reading 'startsWith')"
      case Unsupported(url) => "Unsupported format: " + url
    }
  }

  function RemoteName(args: CliArgs): string {
    args.remote.GetOr(DefaultRemote)
  }

  /** `config` as written. The option is declared as `update-backoff`, which
      the parser exposes as `updateBackoff`, but the script reads
      `updateBackOff`: that is always undefined, so the back-off is
      `undefined * 1000`, not a number, whatever the command line says. */
  function ConfigOf(args: CliArgs): (config: PollConfig)
    ensures config.updateInterval / 1000.0 == args.updateInterval.GetOr(DefaultUpdateInterval)
    ensures args.updateInterval.None? ==> config.updateInterval == 30000.0
    ensures config.updateBackOff.None?
  {
    PollConfig(args.updateInterval.GetOr(DefaultUpdateInterval) * 1000.0, None)
  }

  /** `config` as intended: each option in seconds (or its default) times
      1000, the back-off read from `--update-backoff`. */
  function ConfigOfFixed(args: CliArgs): (config: PollConfig)
    ensures config.updateInterval / 1000.0 == args.updateInterval.GetOr(DefaultUpdateInterval)
    ensures args.updateInterval.None? ==> config.updateInterval == 30000.0
    ensures config.updateBackOff.Some?
    ensures config.updateBackOff.value / 1000.0 == args.updateBackOff.GetOr(DefaultUpdateBackOff)
    ensures args.updateBackOff.None? ==> config.updateBackOff == Some(15000.0)
  {
    PollConfig(args.updateInterval.GetOr(DefaultUpdateInterval) * 1000.0,
               Some(args.updateBackOff.GetOr(DefaultUpdateBackOff) * 1000.0))
  }

  /** The two configurations agree on the update interval and differ only in
      the back-off, which the code as written loses for every command line,
      the default included. */
  lemma ConfigBackOffLost(args: CliArgs)
    ensures ConfigOf(args).updateInterval == ConfigOfFixed(args).updateInterval
    ensures ConfigOf(args).updateBackOff != ConfigOfFixed(args).updateBackOff
    ensures ConfigOf(CliArgs(None, None, None)).updateBackOff.None?
    ensures ConfigOfFixed(CliArgs(None, None, None)).updateBackOff == Some(15000.0)
  {
  }

  /** The trimmed line matches `^<remote>.*\(push\)$`, the remote name read
      literally: it starts with the remote name, ends with "(push)", the two
      do not overlap, and no line terminator lies between them (`.` does not
      match one). */
  predicate MatchesRemote(remote: string, line: string) {
    MatchesTrimmed(remote, Trim(line))
  }

  predicate MatchesTrimmed(remote: string, t: string) {
    && |remote| + |PushMarker| <= |t|
    && StartsWith(t, remote)
    && EndsWith(t, PushMarker)
    && forall k | |remote| <= k < |t| - |PushMarker| :: !IsLineTerminator(t[k])
  }

  /** The index of the first element satisfying `keep`. */
  function FirstIndex(xs: seq<string>, keep: string -> bool): (r: Option<nat>)
    ensures r.None? <==> forall i | 0 <= i < |xs| :: !keep(xs[i])
    ensures r.Some? ==> r.value < |xs| && keep(xs[r.value]) && forall i | 0 <= i < r.value :: !keep(xs[i])
  {
    if xs == [] then None
    else if keep(xs[0]) then Some(0)
    else
      var rest := FirstIndex(xs[1..], keep);
      assert forall i | 1 <= i < |xs| :: xs[i] == xs[1..][i - 1];
      if rest.None? then None else Some(rest.value + 1)
  }

  /** The index of the first matching line: the first element that
      `filter` keeps. */
  function FirstMatch(remote: string, lines: seq<string>): (r: Option<nat>)
    ensures r.None? <==> forall i | 0 <= i < |lines| :: !MatchesRemote(remote, lines[i])
    ensures r.Some? ==>
      && r.value < |lines|
      && MatchesRemote(remote, lines[r.value])
      && forall i | 0 <= i < r.value :: !MatchesRemote(remote, lines[i])
  {
    FirstIndex(lines, line => MatchesRemote(remote, line))
  }

  /** The URL of the remote's push line: the second field of the first
      matching line of the listing, fields being separated by single tabs
      or spaces. */
  function RemoteUrl(remote: string, listing: string): (r: Result<string, GitError>)
    ensures r == Err(NoRemote(remote)) <==>
      forall line | line in Split(listing, {'\n'}) :: !MatchesRemote(remote, line)
    ensures r.Ok? ==> NoSep(r.value, {'\t', ' '})
  {
    var lines := Split(listing, {'\n'});
    var first := FirstMatch(remote, lines);
    if first.None? then
      assert forall line | line in lines :: !MatchesRemote(remote, line) by {
        forall line | line in lines ensures !MatchesRemote(remote, line) {
          var i :| 0 <= i < |lines| && lines[i] == line;
        }
      }
      Err(NoRemote(remote))
    else
      var line := lines[first.value];
      assert line in lines;
      var fields := Split(line, {'\t', ' '});
      if |fields| < 2 then Err(MissingUrl) else Ok(fields[1])
  }

  /** `s.slice(start, -4)`: the characters from `start` up to, but not
      including, the last four; empty when that range is empty. */
  function SliceDropLastFour(s: string, start: nat): (r: string)
    ensures |s| >= start + 4 ==> r == s[start..|s| - 4]
    ensures |s| < start + 4 ==> r == []
  {
    if |s| - 4 <= start then [] else s[start..|s| - 4]
  }

  /** The first two `/`-separated segments of a path. */
  function OwnerRepo(path: string): (info: RepoInfo)
    ensures info.repo.None? <==> NoSep(path, {'/'})
  {
    var parts := Split(path, {'/'});
    SplitHasSecondPart(path, {'/'});
    RepoInfo(parts[0], if |parts| > 1 then Some(parts[1]) else None)
  }

  /** The URL part of `githubInfo`, as written: after the HTTPS or SSH
      prefix, the last four characters are dropped whatever they are. */
  function ParseUrl(url: string): (r: Result<RepoInfo, GitError>)
    ensures r.Err? <==> !StartsWith(url, GitHubHTTPS) && !StartsWith(url, GitHubSSH)
    ensures r.Err? ==> r.error == Unsupported(url)
  {
    if StartsWith(url, GitHubHTTPS) then Ok(OwnerRepo(SliceDropLastFour(url, |GitHubHTTPS|)))
    else if StartsWith(url, GitHubSSH) then Ok(OwnerRepo(SliceDropLastFour(url, |GitHubSSH|)))
    else Err(Unsupported(url))
  }

  /** `githubInfo(remote)` over the given output of `git remote -v`, as written. */
  function GithubInfo(remote: string, listing: string): (r: Result<RepoInfo, GitError>)
    ensures r == Err(NoRemote(remote)) <==>
      forall line | line in Split(listing, {'\n'}) :: !MatchesRemote(remote, line)
  {
    match RemoteUrl(remote, listing)
    case Err(e) => Err(e)
    case Ok(url) => ParseUrl(url)
  }

  /** The path after a GitHub URL prefix, without a trailing ".git" when
      there is one. */
  function StripGitSuffix(path: string): (r: string)
    ensures EndsWith(path, ".git") ==> r + ".git" == path
    ensures !EndsWith(path, ".git") ==> r == path
  {
    if EndsWith(path, ".git") then path[..|path| - 4] else path
  }

  /** The URL part of `githubInfo` with the suffix removed only when it is
      ".git". */
  function ParseUrlFixed(url: string): (r: Result<RepoInfo, GitError>)
    ensures r.Err? <==> !StartsWith(url, GitHubHTTPS) && !StartsWith(url, GitHubSSH)
    ensures r.Err? ==> r.error == Unsupported(url)
  {
    if StartsWith(url, GitHubHTTPS) then Ok(OwnerRepo(StripGitSuffix(url[|GitHubHTTPS|..])))
    else if StartsWith(url, GitHubSSH) then Ok(OwnerRepo(StripGitSuffix(url[|GitHubSSH|..])))
    else Err(Unsupported(url))
  }

  /** `githubInfo(remote)` with the corrected suffix handling. */
  function GithubInfoFixed(remote: string, listing: string): (r: Result<RepoInfo, GitError>)
    ensures r == Err(NoRemote(remote)) <==>
      forall line | line in Split(listing, {'\n'}) :: !MatchesRemote(remote, line)
  {
    match RemoteUrl(remote, listing)
    case Err(e) => Err(e)
    case Ok(url) => ParseUrlFixed(url)
  }

  /** A path of an owner and a repository name without `/` splits back into them. */
  lemma OwnerRepoOfPath(owner: string, repo: string)
    requires NoSep(owner, {'/'}) && NoSep(repo, {'/'})
    ensures OwnerRepo(owner + "/" + repo) == RepoInfo(owner, Some(repo))
  {
    SplitAtFirst(owner, '/', repo, {'/'});
    SplitNoSep(repo, {'/'});
  }

  /** As written, an HTTPS or SSH GitHub URL ending in ".git" yields its
      owner and repository. */
  lemma ParseUrlRoundTrip(prefix: string, owner: string, repo: string)
    requires prefix == GitHubHTTPS || prefix == GitHubSSH
    requires NoSep(owner, {'/'}) && NoSep(repo, {'/'})
    ensures ParseUrl(prefix + owner + "/" + repo + ".git") == Ok(RepoInfo(owner, Some(repo)))
  {
    var path := owner + "/" + repo;
    var url := prefix + path + ".git";
    assert prefix + owner + "/" + repo + ".git" == url;
    assert url[..|prefix|] == prefix;
    assert SliceDropLastFour(url, |prefix|) == path by {
      assert url[|prefix|..|url| - 4] == path;
    }
    if prefix == GitHubSSH {
      assert !StartsWith(url, GitHubHTTPS) by {
        assert url[0] != GitHubHTTPS[0];
      }
    }
    OwnerRepoOfPath(owner, repo);
  }

  /** As written, a GitHub URL without ".git" loses the last four
      characters of its repository name. */
  lemma ParseUrlWithoutGitSuffix()
    ensures ParseUrl("https://github.com/octo/hello") == Ok(RepoInfo("octo", Some("h")))
  {
    var url := "https://github.com/octo/hello";
    assert StartsWith(url, GitHubHTTPS);
    assert SliceDropLastFour(url, |GitHubHTTPS|) == "octo" + "/" + "h";
    OwnerRepoOfPath("octo", "h");
  }

  /** Corrected: a GitHub URL yields its owner and repository whether or
      not it ends in ".git" (a name ending in ".git" itself needs the
      suffix). */
  lemma ParseUrlFixedRoundTrip(prefix: string, owner: string, repo: string, withSuffix: bool)
    requires prefix == GitHubHTTPS || prefix == GitHubSSH
    requires NoSep(owner, {'/'}) && NoSep(repo, {'/'})
    requires !withSuffix ==> !EndsWith(repo, ".git")
    ensures ParseUrlFixed(prefix + owner + "/" + repo + (if withSuffix then ".git" else ""))
            == Ok(RepoInfo(owner, Some(repo)))
  {
    var path := owner + "/" + repo;
    var full := path + (if withSuffix then ".git" else "");
    var url := prefix + full;
    assert prefix + owner + "/" + repo + (if withSuffix then ".git" else "") == url;
    assert url[..|prefix|] == prefix;
    assert url[|prefix|..] == full;
    if prefix == GitHubSSH {
      assert !StartsWith(url, GitHubHTTPS) by {
        assert url[0] != GitHubHTTPS[0];
      }
    }
    if withSuffix {
      assert full[|full| - 4..] == ".git";
      assert full[..|full| - 4] == path;
    } else {
      GitSuffixBelongsToRepo(owner, repo);
    }
    assert StripGitSuffix(full) == path;
    assert ParseUrlFixed(url) == Ok(OwnerRepo(StripGitSuffix(full)));
    OwnerRepoOfPath(owner, repo);
  }

  /** ".git" at the end of a path comes from the repository name, since it holds no `/`. */
  lemma GitSuffixBelongsToRepo(owner: string, repo: string)
    ensures EndsWith(owner + "/" + repo, ".git") ==> EndsWith(repo, ".git")
  {
    var path := owner + "/" + repo;
    if |repo| >= 4 {
      assert path[|path| - 4..] == repo[|repo| - 4..];
    } else if |path| >= 4 {
      assert path[|path| - 4..][3 - |repo|] == '/';
    }
  }

  /** The same URL as in ParseUrlWithoutGitSuffix, parsed correctly. */
  lemma ParseUrlFixedWithoutGitSuffix()
    ensures ParseUrlFixed("https://github.com/octo/hello") == Ok(RepoInfo("octo", Some("hello")))
  {
    assert "https://github.com/octo/hello" == GitHubHTTPS + "octo" + "/" + "hello" + "";
    assert !EndsWith("hello", ".git");
    ParseUrlFixedRoundTrip(GitHubHTTPS, "octo", "hello", false);
  }

  /** The push line `git remote -v` prints for a remote. */
  function RemoteLine(remote: string, url: string): string {
    remote + "\t" + url + " " + PushMarker
  }

  lemma RemoteLineMatches(remote: string, url: string)
    requires |remote| >= 1 && !IsJsWhitespace(remote[0])
    requires forall k | 0 <= k < |url| :: !IsLineTerminator(url[k])
    ensures MatchesRemote(remote, RemoteLine(remote, url))
  {
  }

  lemma RemoteLineFields(remote: string, url: string)
    requires NoSep(remote, {'\t', ' '}) && NoSep(url, {'\t', ' '})
    ensures |Split(RemoteLine(remote, url), {'\t', ' '})| >= 2
    ensures Split(RemoteLine(remote, url), {'\t', ' '})[1] == url
  {
    var seps := {'\t', ' '};
    assert RemoteLine(remote, url) == remote + ['\t'] + (url + [' '] + PushMarker);
    SplitAtFirst(remote, '\t', url + [' '] + PushMarker, seps);
    SplitAtFirst(url, ' ', PushMarker, seps);
  }

  /** Reading back a listing: when line `j` is the push line of `remote`
      and no earlier line matches, the remote's URL is found, and
      `githubInfo` parses that URL. */
  lemma RemoteUrlOfListing(remote: string, lines: seq<string>, j: nat, url: string)
    requires |remote| >= 1 && !IsJsWhitespace(remote[0])
    requires NoSep(remote, {'\t', ' '}) && NoSep(url, {'\t', ' '})
    requires forall k | 0 <= k < |url| :: !IsLineTerminator(url[k])
    requires forall i | 0 <= i < |lines| :: NoSep(lines[i], {'\n'})
    requires j < |lines| && lines[j] == RemoteLine(remote, url)
    requires forall i | 0 <= i < j :: !MatchesRemote(remote, lines[i])
    ensures RemoteUrl(remote, Join(lines, '\n')) == Ok(url)
    ensures GithubInfo(remote, Join(lines, '\n')) == ParseUrl(url)
    ensures GithubInfoFixed(remote, Join(lines, '\n')) == ParseUrlFixed(url)
  {
    SplitJoin(lines, '\n');
    RemoteLineMatches(remote, url);
    FirstMatchAt(remote, lines, j);
    RemoteLineFields(remote, url);
  }

  lemma FirstMatchAt(remote: string, lines: seq<string>, j: nat)
    requires j < |lines| && MatchesRemote(remote, lines[j])
    requires forall i | 0 <= i < j :: !MatchesRemote(remote, lines[i])
    ensures FirstMatch(remote, lines) == Some(j)
  {
  }

  /** A side effect of the script, in the order it happens. */
  datatype Effect =
    | PushBranch(remote: string, branch: string)
    | StartBuild(info: RepoInfo, sourceVersion: string, config: PollConfig)
    | DeleteBranch(remote: string, branch: string)

  /** How a step ends: normally, or by throwing (or rejecting) with a message. */
  datatype Outcome = Done | Failed(message: string)

  /** The script from the push on (local.js:100-109), given the outcome of
      `githubInfo` and the configuration: nothing happens when the
      repository information could not be found; otherwise push the branch,
      run the build, and delete the branch once the build promise settles.
      `push`, `build`, `firstDelete` and `secondDelete` are the outcomes of
      the git pushes and of the build, in call order. `result` is how the
      script ends: `Done`, or the error it throws or the promise chain
      rejects with. */
  method RunScript(remote: string, info: Result<RepoInfo, GitError>, config: PollConfig, branch: string,
                   push: Outcome, build: Outcome, firstDelete: Outcome, secondDelete: Outcome)
    returns (trace: seq<Effect>, result: Outcome)
    ensures info.Err? ==> trace == [] && result == Failed(info.error.Message())
    ensures info.Ok? ==> 1 <= |trace| && trace[0] == PushBranch(remote, branch)
    ensures info.Ok? && push.Failed? ==> trace == [PushBranch(remote, branch)] && result == push
    ensures info.Ok? && push.Done? ==>
      && |trace| == (if build.Done? && firstDelete.Failed? then 4 else 3)
      && trace[1] == StartBuild(info.value, branch, config)
      && forall k | 2 <= k < |trace| :: trace[k] == DeleteBranch(remote, branch)
    ensures result == Done <==> info.Ok? && push.Done? && build.Done? && firstDelete.Done?
    ensures info.Ok? && push.Done? && build.Failed? ==>
      result == (if firstDelete.Failed? then firstDelete else build)
    ensures info.Ok? && push.Done? && build.Done? && firstDelete.Failed? ==>
      result == (if secondDelete.Failed? then secondDelete else firstDelete)
  {
    if info.Err? {
      return [], Failed(info.error.Message());
    }
    trace := [PushBranch(remote, branch)];
    if push.Failed? {
      return trace, push;
    }
    trace := trace + [StartBuild(info.value, branch, config)];
    var settled := build;
    if settled.Done? {
      // The build succeeded: delete the branch.
      trace := trace + [DeleteBranch(remote, branch)];
      settled := firstDelete;
    }
    if settled.Failed? {
      // The build or that delete threw: delete the branch again and rethrow.
      trace := trace + [DeleteBranch(remote, branch)];
      var catchDelete := if build.Done? then secondDelete else firstDelete;
      result := if catchDelete.Failed? then catchDelete else settled;
    } else {
      result := Done;
    }
  }

  /** The whole script as written: the remote's repository information
      (with the unchecked ".git" slice) and the configuration (with the lost
      back-off) are computed before anything is pushed, so a remote that
      cannot be read leaves no trace. */
  method RunLocal(args: CliArgs, listing: string, branch: string,
                  push: Outcome, build: Outcome, firstDelete: Outcome, secondDelete: Outcome)
    returns (trace: seq<Effect>, result: Outcome)
    ensures var info := GithubInfo(RemoteName(args), listing);
      info.Err? ==> trace == [] && result == Failed(info.error.Message())
    ensures var info := GithubInfo(RemoteName(args), listing);
      info.Ok? && push.Failed? ==> trace == [PushBranch(RemoteName(args), branch)] && result == push
    ensures var info := GithubInfo(RemoteName(args), listing);
      info.Ok? && push.Done? ==>
        && |trace| == (if build.Done? && firstDelete.Failed? then 4 else 3)
        && trace[0] == PushBranch(RemoteName(args), branch)
        && trace[1] == StartBuild(info.value, branch, ConfigOf(args))
        && forall k | 2 <= k < |trace| :: trace[k] == DeleteBranch(RemoteName(args), branch)
    ensures result == Done <==>
      GithubInfo(RemoteName(args), listing).Ok? && push.Done? && build.Done? && firstDelete.Done?
    ensures var info := GithubInfo(RemoteName(args), listing);
      info.Ok? && push.Done? && build.Failed? ==>
        result == (if firstDelete.Failed? then firstDelete else build)
    ensures var info := GithubInfo(RemoteName(args), listing);
      info.Ok? && push.Done? && build.Done? && firstDelete.Failed? ==>
        result == (if secondDelete.Failed? then secondDelete else firstDelete)
  {
    var remote := RemoteName(args);
    var info := GithubInfo(remote, listing);
    var config := ConfigOf(args);
    trace, result := RunScript(remote, info, config, branch, push, build, firstDelete, secondDelete);
  }

  /** The same script with the corrected ".git" handling and the back-off
      read from `--update-backoff`: only the repository information and the
      configuration handed to the build differ from `RunLocal`. */
  method RunLocalFixed(args: CliArgs, listing: string, branch: string,
                       push: Outcome, build: Outcome, firstDelete: Outcome, secondDelete: Outcome)
    returns (trace: seq<Effect>, result: Outcome)
    ensures var info := GithubInfoFixed(RemoteName(args), listing);
      info.Err? ==> trace == [] && result == Failed(info.error.Message())
    ensures var info := GithubInfoFixed(RemoteName(args), listing);
      info.Ok? && push.Failed? ==> trace == [PushBranch(RemoteName(args), branch)] && result == push
    ensures var info := GithubInfoFixed(RemoteName(args), listing);
      info.Ok? && push.Done? ==>
        && |trace| == (if build.Done? && firstDelete.Failed? then 4 else 3)
        && trace[0] == PushBranch(RemoteName(args), branch)
        && trace[1] == StartBuild(info.value, branch, ConfigOfFixed(args))
        && forall k | 2 <= k < |trace| :: trace[k] == DeleteBranch(RemoteName(args), branch)
    ensures result == Done <==>
      GithubInfoFixed(RemoteName(args), listing).Ok? && push.Done? && build.Done? && firstDelete.Done?
    ensures var info := GithubInfoFixed(RemoteName(args), listing);
      info.Ok? && push.Done? && build.Failed? ==>
        result == (if firstDelete.Failed? then firstDelete else build)
    ensures var info := GithubInfoFixed(RemoteName(args), listing);
      info.Ok? && push.Done? && build.Done? && firstDelete.Failed? ==>
        result == (if secondDelete.Failed? then secondDelete else firstDelete)
  {
    var remote := RemoteName(args);
    var info := GithubInfoFixed(remote, listing);
    var config := ConfigOfFixed(args);
    trace, result := RunScript(remote, info, config, branch, push, build, firstDelete, secondDelete);
  }
}
