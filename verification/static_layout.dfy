/**
 * The static page layout's decisions (src/layouts/Static.tsx): the edit link
 * built from the configured repository, the guides hub versus breadcrumb
 * header, and the two tables of contents.
 */
module StaticLayout {
  import opened Wrappers
  import Constants
  import Frontmatter

  const DefaultRepo: string := "ethereum/ethereum-org-website"

  /** The fields of a static page's frontmatter the layout reads. */
  datatype StaticFrontmatter = StaticFrontmatter(
    title: string, description: string, sidebarDepth: Option<int>, hideEditButton: Option<bool>)

  /** `NEXT_PUBLIC_GITHUB_REPO || "ethereum/ethereum-org-website"`; the environment is a parameter. */
  function Repo(githubRepoEnv: Option<string>): (r: string)
    ensures githubRepoEnv.Some? && githubRepoEnv.value != "" ==> r == githubRepoEnv.value
    ensures githubRepoEnv.None? || githubRepoEnv == Some("") ==> r == DefaultRepo
    ensures r != ""
  {
    match githubRepoEnv
    case Some(repo) => if repo != "" then repo else DefaultRepo
    case None => DefaultRepo
  }

  function BaseEditPath(repo: string): string {
    "https://github.com/" + repo + "/tree/dev/" + Constants.ContentDir + "/"
  }

  /** The edit link: the content directory of the repository's dev branch, the slug, then "index.md". */
  function AbsoluteEditPath(githubRepoEnv: Option<string>, slug: string): (r: string)
    ensures var base := BaseEditPath(Repo(githubRepoEnv));
            |r| == |base| + |slug| + 8 && r[..|base|] == base
            && r[|base|..|base| + |slug|] == slug && r[|base| + |slug|..] == "index.md"
  {
    BaseEditPath(Repo(githubRepoEnv)) + slug + "index.md"
  }

  /** With the default repository, the edit base is the site's edit URL followed by the content directory. */
  lemma DefaultBaseIsEditContentUrl()
    ensures BaseEditPath(Repo(None)) == Constants.EditContentUrl + Constants.ContentDir + "/"
  {
    var prefix := "https://github.com/" + DefaultRepo + "/tree/dev/";
    assert prefix == Constants.EditContentUrl;
    assert BaseEditPath(DefaultRepo) == prefix + Constants.ContentDir + "/";
  }

  /** What heads the page: the guides hub hero, or breadcrumbs for the slug with the last-updated line. */
  datatype Header =
    | HubHero(header: string, heroTitle: string, description: string)
    | Trail(breadcrumbSlug: string, showsLastUpdated: bool)

  function PageHeader(slug: string, fm: StaticFrontmatter): (r: Header)
    ensures r.HubHero? <==> slug == "/guides/"
    ensures r.HubHero? ==> r.header == fm.title && r.heroTitle == "" && r.description == fm.description
    ensures r.Trail? ==> r.breadcrumbSlug == slug && r.showsLastUpdated
  {
    if slug == "/guides/" then HubHero(fm.title, "", fm.description)
    else Trail(slug, true)
  }

  /** A table of contents' settings; only the desktop one carries the edit link. */
  datatype TocSettings = TocSettings(maxDepth: int, hideEditButton: bool, editPath: Option<string>)

  datatype Tocs = Tocs(mobile: TocSettings, desktop: TocSettings)

  function PageTocs(fm: StaticFrontmatter, githubRepoEnv: Option<string>, slug: string): (r: Tocs)
    ensures r.mobile.maxDepth == Frontmatter.TocMaxDepth(fm.sidebarDepth)
    ensures r.desktop.maxDepth == r.mobile.maxDepth
    ensures r.mobile.hideEditButton == r.desktop.hideEditButton
    ensures r.desktop.hideEditButton <==> fm.hideEditButton == Some(true)
    ensures r.mobile.editPath == None && r.desktop.editPath == Some(AbsoluteEditPath(githubRepoEnv, slug))
  {
    var depth := Frontmatter.TocMaxDepth(fm.sidebarDepth);
    var hidden := Frontmatter.HideEditButton(fm.hideEditButton);
    Tocs(TocSettings(depth, hidden, None), TocSettings(depth, hidden, Some(AbsoluteEditPath(githubRepoEnv, slug))))
  }
}
