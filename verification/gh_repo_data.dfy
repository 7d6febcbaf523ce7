/**
 * GitHub repository statistics for the local-environment frameworks
 * (src/lib/api/ghRepoData.ts): owner and name taken from a repository URL,
 * the two API endpoints, the error paths, and the merge of star counts and
 * the first two languages into each framework.
 *
 * The HTTP client is a parameter: `fetch(url)` is how the request for `url`
 * settles. Either the request is rejected, or a response arrives with its `ok`
 * flag and a body whose `json()` either rejects or yields the two fields the
 * code reads.
 */
module GhRepoData {
  import opened Wrappers
  import opened Strings

  /** A parsed body: its `stargazers_count` and its object keys in order. */
  datatype Body = Body(stargazersCount: int, objectKeys: seq<string>)

  /** A settled `fetch`: a rejection with its reason, or a response whose `json()` may reject. */
  datatype Reply =
    | Rejected(reason: string)
    | Response(ok: bool, body: Result<Body, string>)

  datatype RepoStats = RepoStats(starCount: int, languages: seq<string>)

  /** The outcome of `ghRepoData` and the URLs it requested, in request order. */
  datatype Fetched = Fetched(outcome: Result<RepoStats, string>, requested: seq<string>)

  const ApiRepos: string := "https://api.github.com/repos/"
  const RepoError: string := "Failed to fetch Github repo data"
  const LanguagesError: string := "Failed to fetch Github repo language data"

  /** An absent array element interpolated into a template literal. */
  const Undefined: string := "undefined"

  /** `split[split.length - 2]` of the URL's "/"-pieces ("undefined" when there is only one piece). */
  function RepoOwner(githubUrl: string): string {
    var parts := Split(githubUrl, '/');
    if |parts| >= 2 then parts[|parts| - 2] else Undefined
  }

  /** `split[split.length - 1]`: the last "/"-piece. */
  function RepoName(githubUrl: string): string {
    var parts := Split(githubUrl, '/');
    parts[|parts| - 1]
  }

  function RepoEndpoint(owner: string, name: string): string {
    ApiRepos + owner + "/" + name
  }

  function LanguagesEndpoint(owner: string, name: string): (r: string)
    ensures r == RepoEndpoint(owner, name) + "/languages"
  {
    ApiRepos + owner + "/" + name + "/languages"
  }

  /** The URL of the repository request for a GitHub URL. */
  function RepoUrl(githubUrl: string): string {
    RepoEndpoint(RepoOwner(githubUrl), RepoName(githubUrl))
  }

  /**
   * The body of a settled request, or the error `await` throws: the
   * rejection's reason, `notOk` for a non-ok response, or the rejection of
   * `json()`.
   */
  function Settle(reply: Reply, notOk: string): Result<Body, string> {
    match reply
    case Rejected(reason) => Failure(reason)
    case Response(ok, body) => if !ok then Failure(notOk) else body
  }

  /**
   * `ghRepoData`: request the repository and parse its body; any failure there
   * ends the call before the language request. Otherwise request the languages
   * and parse that body. On success return the star count and the language
   * names.
   */
  function FetchRepoData(githubUrl: string, fetch: string -> Reply): (r: Fetched)
    ensures |r.requested| >= 1 && r.requested[0] == RepoUrl(githubUrl)
    ensures var repo := fetch(RepoUrl(githubUrl));
            && (repo.Rejected? ==> r == Fetched(Failure(repo.reason), [RepoUrl(githubUrl)]))
            && (repo.Response? && !repo.ok ==> r == Fetched(Failure(RepoError), [RepoUrl(githubUrl)]))
            && (repo.Response? && repo.ok && repo.body.Failure? ==>
                  r == Fetched(Failure(repo.body.error), [RepoUrl(githubUrl)]))
    ensures var repo := fetch(RepoUrl(githubUrl));
            var languagesUrl := RepoUrl(githubUrl) + "/languages";
            var languages := fetch(languagesUrl);
            repo.Response? && repo.ok && repo.body.Success? ==>
              && r.requested == [RepoUrl(githubUrl), languagesUrl]
              && (languages.Rejected? ==> r.outcome == Failure(languages.reason))
              && (languages.Response? && !languages.ok ==> r.outcome == Failure(LanguagesError))
              && (languages.Response? && languages.ok && languages.body.Failure? ==>
                    r.outcome == Failure(languages.body.error))
              && (languages.Response? && languages.ok && languages.body.Success? ==>
                    r.outcome == Success(RepoStats(repo.body.value.stargazersCount,
                                                   languages.body.value.objectKeys)))
  {
    var owner := RepoOwner(githubUrl);
    var name := RepoName(githubUrl);
    var repoUrl := RepoEndpoint(owner, name);
    match Settle(fetch(repoUrl), RepoError)
    case Failure(e) => Fetched(Failure(e), [repoUrl])
    case Success(repoData) =>
      var languagesUrl := LanguagesEndpoint(owner, name);
      match Settle(fetch(languagesUrl), LanguagesError)
      case Failure(e) => Fetched(Failure(e), [repoUrl, languagesUrl])
      case Success(languageData) =>
        Fetched(Success(RepoStats(repoData.stargazersCount, languageData.objectKeys)), [repoUrl, languagesUrl])
  }

  /** The owner and name are the last two "/"-pieces of the URL, whatever precedes them. */
  lemma OwnerAndNameAreLastPieces(base: string, owner: string, name: string)
    requires '/' !in owner && '/' !in name
    ensures RepoOwner(base + "/" + owner + "/" + name) == owner
    ensures RepoName(base + "/" + owner + "/" + name) == name
  {
    SplitAtLastSeparator(base + "/" + owner, name, '/');
    SplitAtLastSeparator(base, owner, '/');
    assert base + "/" + owner + "/" + name == (base + "/" + owner) + ['/'] + name;
    assert base + "/" + owner == base + ['/'] + owner;
  }

  /** "https://github.com/<owner>/<name>" is read from the endpoint "https://api.github.com/repos/<owner>/<name>". */
  lemma GithubUrlEndpoint(owner: string, name: string)
    requires '/' !in owner && '/' !in name
    ensures var url := "https://github.com/" + owner + "/" + name;
            RepoEndpoint(RepoOwner(url), RepoName(url)) == "https://api.github.com/repos/" + owner + "/" + name
  {
    OwnerAndNameAreLastPieces("https://github.com", owner, name);
    assert "https://github.com/" + owner + "/" + name == "https://github.com" + "/" + owner + "/" + name;
  }

  /** A URL with no "/" has no owner piece: the owner reads "undefined". */
  lemma OwnerOfUrlWithoutSlash(githubUrl: string)
    requires '/' !in githubUrl
    ensures RepoOwner(githubUrl) == Undefined && RepoName(githubUrl) == githubUrl
  {
    SplitNoSeparator(githubUrl, '/');
  }

  /** A local-environment framework; `starCount` and `languages` are filled in by the merge. */
  datatype Framework = Framework(
    id: string, url: string, githubUrl: string, background: string, name: string,
    description: string, alt: string, image: string,
    starCount: Option<int>, languages: Option<seq<string>>)

  /** `{ ...framework, starCount, languages: languages.slice(0, 2) }`. */
  function Merge(f: Framework, stats: RepoStats): (m: Framework)
    ensures m.(starCount := f.starCount, languages := f.languages) == f
    ensures m.starCount == Some(stats.starCount)
    ensures m.languages.Some? && |m.languages.value| == Min(2, |stats.languages|)
    ensures m.languages.Some? && m.languages.value == stats.languages[..|m.languages.value|]
  {
    f.(starCount := Some(stats.starCount), languages := Some(SliceTo(stats.languages, 2)))
  }

  /** The outcome of `ghRepoData` for a framework's repository. */
  function Outcome(f: Framework, fetch: string -> Reply): Result<RepoStats, string> {
    FetchRepoData(f.githubUrl, fetch).outcome
  }

  /**
   * The frameworks merged with their repository data, or the error of a
   * failing fetch. `Promise.all` rejects with the first rejection; here that is
   * the first failing framework in list order.
   */
  function FrameworkData(frameworks: seq<Framework>, fetch: string -> Reply): (r: Result<seq<Framework>, string>)
    ensures r.Success? ==> |r.value| == |frameworks|
    decreases |frameworks|
  {
    if |frameworks| == 0 then Success([])
    else
      match Outcome(frameworks[0], fetch)
      case Failure(e) => Failure(e)
      case Success(stats) =>
        match FrameworkData(frameworks[1..], fetch)
        case Failure(e) => Failure(e)
        case Success(rest) => Success([Merge(frameworks[0], stats)] + rest)
  }

  /** The merge succeeds exactly when every framework's fetch does, and then merges each with its own data. */
  lemma {:induction false} FrameworkDataSucceeds(frameworks: seq<Framework>, fetch: string -> Reply)
    ensures var r := FrameworkData(frameworks, fetch);
            r.Success? <==> forall i :: 0 <= i < |frameworks| ==> Outcome(frameworks[i], fetch).Success?
    ensures var r := FrameworkData(frameworks, fetch);
            r.Success? ==> forall i :: 0 <= i < |frameworks| ==>
              r.value[i] == Merge(frameworks[i], Outcome(frameworks[i], fetch).value)
    decreases |frameworks|
  {
    if |frameworks| > 0 {
      var tail := frameworks[1..];
      FrameworkDataSucceeds(tail, fetch);
      assert forall i :: 1 <= i < |frameworks| ==> frameworks[i] == tail[i - 1];
    }
  }

  /** A failing merge carries the error of the first framework whose fetch fails. */
  lemma {:induction false} FrameworkDataFailsFirst(frameworks: seq<Framework>, fetch: string -> Reply)
    ensures var r := FrameworkData(frameworks, fetch);
            r.Failure? ==> exists k :: 0 <= k < |frameworks| && Outcome(frameworks[k], fetch) == Failure(r.error)
                                       && forall j :: 0 <= j < k ==> Outcome(frameworks[j], fetch).Success?
    decreases |frameworks|
  {
    var r := FrameworkData(frameworks, fetch);
    if |frameworks| > 0 && r.Failure? {
      match Outcome(frameworks[0], fetch)
      case Failure(e) =>
        assert r == Failure(e);
        assert Outcome(frameworks[0], fetch) == Failure(r.error);
      case Success(stats) =>
        var tail := frameworks[1..];
        assert r == FrameworkData(tail, fetch);
        FrameworkDataFailsFirst(tail, fetch);
        var k :| 0 <= k < |tail| && Outcome(tail[k], fetch) == Failure(r.error)
                 && forall j :: 0 <= j < k ==> Outcome(tail[j], fetch).Success?;
        assert frameworks[k + 1] == tail[k];
        forall j | 0 <= j < k + 1 ensures Outcome(frameworks[j], fetch).Success? {
          if j > 0 {
            assert frameworks[j] == tail[j - 1];
          }
        }
    }
  }

  /** In the merged data every framework keeps its fields and has at most its first two languages. */
  lemma MergedFrameworksKeepFields(frameworks: seq<Framework>, fetch: string -> Reply)
    requires FrameworkData(frameworks, fetch).Success?
    ensures var merged := FrameworkData(frameworks, fetch).value;
            forall i :: 0 <= i < |merged| ==>
              && merged[i].id == frameworks[i].id
              && merged[i].githubUrl == frameworks[i].githubUrl
              && merged[i].name == frameworks[i].name
              && merged[i].languages.Some? && |merged[i].languages.value| <= 2
  {
    FrameworkDataSucceeds(frameworks, fetch);
  }

  function Entry(id: string, url: string, githubUrl: string, background: string, name: string,
                 descriptionId: string, image: string): Framework {
    var keyBase := "page-developers-local-environment:page-local-environment-" + descriptionId;
    Framework(id, url, githubUrl, background, name, keyBase + "-desc", keyBase + "-logo-alt", image, None, None)
  }

  /** `frameworksList`. */
  const FrameworksList: seq<Framework> := [
    Entry("waffle", "https://getwaffle.io/", "https://github.com/EthWorks/waffle", "#ffffff", "Waffle",
          "waffle", "WaffleImage"),
    Entry("kurtosis", "https://www.kurtosis.com/", "https://github.com/kurtosis-tech/kurtosis", "#000000",
          "Kurtosis", "kurtosis", "KurtosisImage"),
    Entry("hardhat", "https://hardhat.org/", "https://github.com/nomiclabs/hardhat", "#faf8fb", "Hardhat",
          "hardhat", "HardhatImage"),
    Entry("truffle", "https://www.trufflesuite.com/", "https://github.com/trufflesuite/truffle", "#31272a",
          "Truffle", "truffle", "TruffleImage"),
    Entry("brownie", "https://github.com/eth-brownie/brownie", "https://github.com/eth-brownie/brownie",
          "#ffffff", "Brownie", "brownie", "EthDiamondBlackImage"),
    Entry("epirus", "https://www.web3labs.com/epirus", "https://github.com/web3labs/epirus-free", "#ffffff",
          "Epirus", "epirus", "EpirusImage"),
    Entry("createethapp", "https://github.com/PaulRBerg/create-eth-app", "https://github.com/PaulRBerg/create-eth-app",
          "#ffffff", "Create Eth App", "eth-app", "EthDiamondBlackImage"),
    Entry("scaffoldeth", "https://github.com/austintgriffith/scaffold-eth",
          "https://github.com/austintgriffith/scaffold-eth", "#ffffff", "scaffold-eth", "scaffold-eth",
          "ScaffoldEthImage"),
    Entry("soliditytemplate", "https://github.com/paulrberg/solidity-template",
          "https://github.com/paulrberg/solidity-template", "#ffffff", "Solidity template", "solidity-template",
          "EthDiamondBlackImage"),
    Entry("foundry", "https://getfoundry.sh/", "https://github.com/foundry-rs/foundry", "#ffffff", "Foundry",
          "foundry", "FoundryImage")
  ]

  /** `getLocalEnvironmentFrameworkData`: the frameworks list merged with its repository data. */
  function LocalEnvironmentFrameworkData(fetch: string -> Reply): (r: Result<seq<Framework>, string>)
    ensures r.Success? ==> |r.value| == |FrameworksList|
  {
    FrameworkData(FrameworksList, fetch)
  }
}
