/**
 * The use-case page layout's decisions (src/layouts/UseCases.tsx): the hero
 * variant chosen from the slug, the hero image's maximum widths and the edit
 * link. The table-of-contents depth is the shared `Frontmatter.TocMaxDepth`.
 */
module UseCasesLayout {
  import opened Strings
  import Constants

  datatype UseCase = Defi | Dao | Nft

  /** "defi" by default, "dao" for a slug containing "dao" or "identity", "nft" for one containing "nft". */
  function SelectUseCase(slug: string): (r: UseCase)
    ensures r == Nft <==> Contains(slug, "nft")
    ensures r == Dao <==> !Contains(slug, "nft") && (Contains(slug, "dao") || Contains(slug, "identity"))
    ensures r == Defi <==> !Contains(slug, "nft") && !Contains(slug, "dao") && !Contains(slug, "identity")
  {
    var useCase := if Contains(slug, "dao") || Contains(slug, "identity") then Dao else Defi;
    if Contains(slug, "nft") then Nft else useCase
  }

  /** A responsive style value: below and above the `lg` breakpoint. */
  datatype Responsive = Responsive(base: string, lg: string)

  /** The hero image's `maxW`. */
  function HeroImageMaxWidth(useCase: UseCase): (r: Responsive)
    ensures r.base == "full" <==> useCase == Defi
    ensures useCase != Defi ==> r.base == "min(405px, 98%)"
    ensures r.lg == (match useCase case Dao => "572px" case Defi => "80%" case Nft => "640px")
  {
    var lg := if useCase == Dao then "572px" else if useCase == Defi then "80%" else "640px";
    Responsive(if useCase == Defi then "full" else "min(405px, 98%)", lg)
  }

  /** The banner's edit link: the content URL followed by the router path. */
  function AbsoluteEditPath(asPath: string): (r: string)
    ensures |r| == |Constants.EditContentUrl| + |asPath|
    ensures r[..|Constants.EditContentUrl|] == Constants.EditContentUrl
    ensures r[|Constants.EditContentUrl|..] == asPath
  {
    Constants.EditContentUrl + asPath
  }

  /** A slug with "nft" is an NFT page even when it also names a DAO or identity. */
  lemma NftOverridesDao(before: string, after: string)
    ensures SelectUseCase(before + "nft" + after) == Nft
  {
    var s := before + "nft" + after;
    assert s[|before|..|before| + 3] == "nft";
    assert OccursAt(s, "nft", |before|);
    ContainsIff(s, "nft");
  }

  /** A slug with "identity" and no "nft" uses the DAO hero. */
  lemma IdentityUsesDaoHero(before: string, after: string)
    requires !Contains(before + "identity" + after, "nft")
    ensures SelectUseCase(before + "identity" + after) == Dao
  {
    var s := before + "identity" + after;
    assert s[|before|..|before| + 8] == "identity";
    assert OccursAt(s, "identity", |before|);
    ContainsIff(s, "identity");
  }
}
