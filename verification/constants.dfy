/** Site-wide constants and the locale list (src/lib/constants.ts). */
module Constants {
  import opened Wrappers
  import opened Strings

  const OldContentDir: string := "src/content"
  const ContentDir: string := "public/content"
  const TranslationsDir: string := "public/content/translations"
  const TranslatedImagesDir: string := "/content/translations"

  const DefaultLocale: string := "en"

  const SiteUrl: string := "https://ethereum.org"
  const DiscordPath: string := "/discord/"
  const EditContentUrl: string := "https://github.com/ethereum/ethereum-org-website/tree/dev/"
  const WebsiteEmail: string := "website@ethereum.org"

  /** Pixels. */
  const ContentImagesMaxWidth: nat := 800

  const GithubBaseApi: string := "https://api.github.com/repos/ethereum/ethereum-org-website"
  const GithubCommitsUrl: string := GithubBaseApi + "/commits"
  const GithubUrl: string := "https://github.com/"
  /** Seconds. */
  const BaseTimeUnit: nat := 3600

  // Quiz hub
  const ProgressBarGap: string := "4px"
  /** Percent. */
  const PassingQuizScore: nat := 65
  const UserStatsKey: string := "quizzes-stats"
  const InitialQuiz: string := "what-is-ethereum"
  const TotalQuizQuestionsAnswered: nat := 100000
  const TotalQuizAverageScore: real := 67.4
  const TotalQuizRetryRate: real := 15.6

  const NavBarPxHeight: string := "75px"
  const FromQuery: string := "from"

  /**
   * The supported locale codes: the comma-separated build variable when it is
   * set and non-empty (a JavaScript truthiness test), otherwise the codes of the
   * i18n configuration in their configured order. The environment and the
   * configuration file are parameters.
   */
  function LocalesCodes(buildLocales: Option<string>, configCodes: seq<string>): (r: seq<string>)
    ensures buildLocales.None? || buildLocales == Some("") ==> r == configCodes
    ensures buildLocales.Some? && buildLocales.value != "" ==>
              |r| >= 1 && Join(r, ',') == buildLocales.value
    ensures buildLocales.Some? && buildLocales.value != "" ==>
              forall k :: 0 <= k < |r| ==> ',' !in r[k]
  {
    match buildLocales
    case Some(codes) =>
      if codes != "" then
        JoinSplit(codes, ',');
        Split(codes, ',')
      else configCodes
    case None => configCodes
  }

  /** A build list written as codes joined by commas yields exactly those codes, in order. */
  lemma {:induction false} LocalesCodesFromBuildList(codes: seq<string>, configCodes: seq<string>)
    requires |codes| >= 1 && Join(codes, ',') != ""
    requires forall k :: 0 <= k < |codes| ==> ',' !in codes[k]
    ensures LocalesCodes(Some(Join(codes, ',')), configCodes) == codes
  {
    SplitJoin(codes, ',');
  }
}
