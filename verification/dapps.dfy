/**
 * The dApps page's category logic (src/pages/dapps.tsx): the category read
 * from the `category` query parameter, the scroll request on load, the URL
 * pushed when a category is chosen, and the benefits block and "more" link
 * of each category.
 *
 * Browser effects (`window.scrollTo`, `history.pushState`) are returned as
 * data; whether `window` exists and whether the explore anchor is mounted
 * are parameters.
 */
module Dapps {
  import opened Wrappers
  import opened Strings

  /** `CategoryType`. */
  datatype Category = Finance | Technology | Collectibles | Gaming | Metaverse | Social

  /** The enum's string value. */
  function Name(c: Category): string {
    match c
    case Finance => "finance"
    case Technology => "technology"
    case Collectibles => "collectibles"
    case Gaming => "gaming"
    case Metaverse => "metaverse"
    case Social => "social"
  }

  /** The six values the query is checked against, in the source's order. */
  const KnownCategories: seq<Category> := [Finance, Technology, Collectibles, Gaming, Metaverse, Social]

  /** The category selected before any query is read. */
  const InitialCategory: Category := Finance

  /** `KnownCategories.includes(token)`: the category whose value is `token`, if any. */
  function FromName(token: string): (r: Option<Category>)
    ensures r.Some? ==> Name(r.value) == token
    ensures r.None? ==> forall c :: Name(c) != token
  {
    if token == "finance" then Some(Finance)
    else if token == "technology" then Some(Technology)
    else if token == "collectibles" then Some(Collectibles)
    else if token == "gaming" then Some(Gaming)
    else if token == "metaverse" then Some(Metaverse)
    else if token == "social" then Some(Social)
    else None
  }

  /** `(query.category as string) || ""`: an absent parameter reads as the empty string. */
  function RawQuery(query: Option<string>): string {
    query.GetOr("")
  }

  /** The first comma-separated token of a raw query value. */
  function FirstToken(raw: string): string {
    Split(raw, ',')[0]
  }

  /**
   * The category chosen on load: finance for a missing or empty query,
   * otherwise the first comma token when it names a category, otherwise finance.
   */
  function ResolveCategory(query: Option<string>): (r: Category)
    ensures RawQuery(query) == "" ==> r == Finance
    ensures forall c :: RawQuery(query) != "" && Name(c) == FirstToken(RawQuery(query)) ==> r == c
    ensures (forall c :: Name(c) != FirstToken(RawQuery(query))) ==> r == Finance
    ensures r in KnownCategories
  {
    var raw := RawQuery(query);
    if raw == "" then Finance
    else FromName(FirstToken(raw)).GetOr(Finance)
  }

  /** The scroll to the explore section is requested when the raw query is non-empty and the anchor exists. */
  predicate ScrollRequested(query: Option<string>, hasWindow: bool, exploreMounted: bool) {
    hasWindow && RawQuery(query) != "" && exploreMounted
  }

  /** The page state after loading with a query: the resolved category and whether a scroll is requested. */
  datatype LoadEffect = LoadEffect(category: Category, scroll: bool)

  function OnQueryChange(query: Option<string>, hasWindow: bool, exploreMounted: bool): (r: LoadEffect)
    ensures r.category == ResolveCategory(query)
    ensures r.scroll <==> hasWindow && exploreMounted && query.Some? && query.value != ""
  {
    LoadEffect(ResolveCategory(query), ScrollRequested(query, hasWindow, exploreMounted))
  }

  const DappsPath: string := "/dapps/"
  const CategoryParam: string := "?category="

  /**
   * `updatePath`: the URL pushed to the history, if any. Outside the mobile
   * case (and with a `window`) it is "/<locale>/dapps/?category=<c>", with
   * finance for an empty value. In the mobile case a "#explore" path is built
   * and then dropped, so nothing is pushed.
   */
  function UpdatePath(category: string, isMobile: bool, hasWindow: bool, locale: string): (r: Option<string>)
    ensures isMobile || !hasWindow ==> r == None
    ensures !isMobile && hasWindow ==> r.Some?
    ensures r.Some? && category != "" ==> r.value == "/" + locale + DappsPath + CategoryParam + category
    ensures r.Some? && category == "" ==> r.value == "/" + locale + DappsPath + CategoryParam + Name(Finance)
  {
    var newPath := DappsPath + CategoryParam + (if category != "" then category else Name(Finance));
    if isMobile then None
    else if hasWindow then
      Some("/" + locale + newPath)
    else None
  }

  /** The state after `handleCategorySelect`: the selected category and the URL pushed, if any. */
  datatype Selection = Selection(selected: Category, pushed: Option<string>)

  function HandleCategorySelect(category: Category, isMobile: bool, hasWindow: bool, locale: string): (r: Selection)
    ensures r.selected == category
    ensures r.pushed.Some? <==> !isMobile && hasWindow
    ensures r.pushed.Some? ==> r.pushed.value == "/" + locale + DappsPath + CategoryParam + Name(category)
  {
    Selection(category, UpdatePath(Name(category), isMobile, hasWindow, locale))
  }

  /** The query value carried by a pushed URL: the text after the first "?category=". */
  function CategoryQueryOf(url: string): Option<string> {
    match IndexOf(url, CategoryParam)
    case Some(i) => Some(url[i + |CategoryParam|..])
    case None => None
  }

  /**
   * The URL pushed on selection leads back to the same category when the page
   * is loaded from it, for any locale without a "?".
   */
  lemma SelectionRoundTrip(category: Category, locale: string)
    requires '?' !in locale
    ensures var pushed := HandleCategorySelect(category, false, true, locale).pushed;
            pushed.Some? && ResolveCategory(CategoryQueryOf(pushed.value)) == category
  {
    var prefix := "/" + locale + DappsPath;
    var url := prefix + CategoryParam + Name(category);
    assert url == "/" + locale + DappsPath + CategoryParam + Name(category);
    assert forall j: nat :: j < |prefix| ==> url[j] == prefix[j];
    assert forall j: nat :: j < |prefix| ==> prefix[j] != '?';
    assert forall j: nat :: j < |prefix| ==> !OccursAt(url, CategoryParam, j) by {
      forall j: nat | j < |prefix| ensures !OccursAt(url, CategoryParam, j) {
        assert url[j] != CategoryParam[0];
      }
    }
    assert url[|prefix|..|prefix| + |CategoryParam|] == CategoryParam;
    assert OccursAt(url, CategoryParam, |prefix|);
    assert url[|prefix| + |CategoryParam|..] == Name(category);
    NameRoundTrip(category, "");
  }

  /** The value of a category, alone or followed by more comma tokens, resolves to that category. */
  lemma NameRoundTrip(category: Category, more: string)
    ensures ResolveCategory(Some(Name(category))) == category
    ensures ResolveCategory(Some(Name(category) + "," + more)) == category
  {
    assert ',' !in Name(category);
    SplitNoSeparator(Name(category), ',');
    SplitAtFirstSeparator(Name(category), more, ',');
    assert Name(category) + "," + more == Name(category) + [','] + more;
  }

  /**
   * A non-empty query whose first comma token names no category resolves to
   * finance, and still requests the scroll whenever the window and the anchor exist.
   */
  lemma UnknownQueryFallsBackButScrolls(q: string, hasWindow: bool, exploreMounted: bool)
    requires q != ""
    requires forall c :: Name(c) != FirstToken(q)
    ensures OnQueryChange(Some(q), hasWindow, exploreMounted) == LoadEffect(Finance, hasWindow && exploreMounted)
  {
  }

  /** A benefit card of a category. */
  datatype Benefit = Benefit(emoji: string, titleKey: string, descriptionKey: string)

  /** An entry of the `categories` table; social and technology carry no benefits. */
  datatype CategoryInfo = CategoryInfo(
    titleKey: string,
    emoji: string,
    benefitsTitleKey: Option<string>,
    benefitsDescriptionKey: Option<string>,
    benefits: Option<seq<Benefit>>)

  function BenefitCard(emoji: string, category: string, n: string): Benefit {
    var key := "page-dapps-" + category + "-benefits-" + n;
    Benefit(emoji, key + "-title", key + "-description")
  }

  function WithBenefits(category: string, emoji: string, benefits: seq<Benefit>): CategoryInfo {
    var key := "page-dapps-" + category;
    CategoryInfo(key + "-button", emoji, Some(key + "-benefits-title"), Some(key + "-benefits-description"),
                 Some(benefits))
  }

  function Info(c: Category): CategoryInfo {
    match c
    case Finance =>
      WithBenefits("finance", ":money_with_wings:", [
        BenefitCard(":open_lock:", "finance", "1"), BenefitCard(":bank:", "finance", "2"),
        BenefitCard(":scales:", "finance", "3"), BenefitCard(":chains:", "finance", "4")])
    case Collectibles =>
      WithBenefits("collectibles", ":frame_with_picture:", [
        BenefitCard(":white_check_mark:", "collectibles", "1"), BenefitCard(":man_singer:", "collectibles", "2"),
        BenefitCard(":shopping_bags:", "collectibles", "3"), BenefitCard(":department_store:", "collectibles", "4")])
    case Gaming =>
      WithBenefits("gaming", ":video_game:", [
        BenefitCard(":crossed_swords:", "gaming", "1"), BenefitCard(":european_castle:", "gaming", "2"),
        BenefitCard(":handshake:", "gaming", "3")])
    case Metaverse =>
      WithBenefits("metaverse", ":globe_with_meridians:", [
        BenefitCard(":tophat:", "metaverse", "1"), BenefitCard(":person:", "metaverse", "2")])
    case Social => CategoryInfo("page-dapps-social-button", ":incoming_envelope:", None, None, None)
    case Technology => CategoryInfo("page-dapps-technology-button", ":keyboard:", None, None, None)
  }

  /** The entries of the `categories` table, in the literal's insertion order. */
  const CategoryTable: seq<Category> := [Finance, Collectibles, Gaming, Metaverse, Social, Technology]

  /** `Object.keys(categories)`: each entry's enum value, in insertion order. */
  const CategoryKeys: seq<string> := Names(CategoryTable)

  function Names(cs: seq<Category>): (r: seq<string>)
    ensures |r| == |cs| && forall i :: 0 <= i < |cs| ==> r[i] == Name(cs[i])
  {
    if |cs| == 0 then [] else [Name(cs[0])] + Names(cs[1..])
  }

  /** The "more" button under a benefits block. */
  datatype MoreLink = MoreLink(to: string, labelKey: string)

  /** The rendered benefits block: title, description, cards and the optional "more" button. */
  datatype BenefitsBlock = BenefitsBlock(titleKey: Option<string>, descriptionKey: Option<string>,
                                         cards: seq<Benefit>, more: Option<MoreLink>)

  function MoreLinkFor(c: Category): Option<MoreLink> {
    if c == Finance then Some(MoreLink("/defi/", "page-dapps-more-on-defi-button"))
    else if c == Collectibles then Some(MoreLink("/nft/", "page-dapps-more-on-nft-button"))
    else if c == Gaming then Some(MoreLink("/nft/", "page-dapps-more-on-nft-gaming-button"))
    else None
  }

  /** The general block under the category content: present only for a category with benefits. */
  function Benefits(selected: Category): (r: Option<BenefitsBlock>)
    ensures r.Some? <==> Info(selected).benefits.Some?
    ensures r.Some? ==> r.value.cards == Info(selected).benefits.value
    ensures r.Some? ==> r.value.titleKey == Info(selected).benefitsTitleKey
  {
    var info := Info(selected);
    match info.benefits
    case Some(cards) => Some(BenefitsBlock(info.benefitsTitleKey, info.benefitsDescriptionKey, cards,
                                           MoreLinkFor(selected)))
    case None => None
  }

  /**
   * Finance, collectibles, gaming and metaverse show benefits; social and
   * technology do not. The "more" link goes to /defi/ for finance, /nft/ for
   * collectibles and gaming, and is absent otherwise.
   */
  lemma BenefitsByCategory(c: Category)
    ensures Benefits(c).Some? <==> c !in {Social, Technology}
    ensures Benefits(c).Some? && Benefits(c).value.more.Some? <==> c in {Finance, Collectibles, Gaming}
    ensures c == Finance ==> Benefits(c).value.more.value.to == "/defi/"
    ensures c in {Collectibles, Gaming} ==> Benefits(c).value.more.value.to == "/nft/"
    ensures Benefits(c).Some? ==> |Benefits(c).value.cards| == (match c
              case Finance => 4 case Collectibles => 4 case Gaming => 3 case _ => 2)
  {
  }

  /** A category value names exactly that category. */
  lemma NameNamesCategory(c: Category)
    ensures FromName(Name(c)) == Some(c)
  {
  }

  /** Every key of the table names a category. */
  lemma KeysNameCategories()
    ensures forall i :: 0 <= i < |CategoryKeys| ==> FromName(CategoryKeys[i]).Some?
  {
    forall i | 0 <= i < |CategoryKeys| ensures FromName(CategoryKeys[i]).Some? {
      NameNamesCategory(CategoryTable[i]);
    }
  }

  /** A category button: the category it selects, whether it is active, its emoji and its title key. */
  datatype CategoryButton = CategoryButton(category: Category, isActive: bool, emoji: string, titleKey: string)

  /** The button of a table key; `key as CategoryType` reads the key as the category it names. */
  function ButtonFor(key: string, selected: Category): CategoryButton
    requires FromName(key).Some?
  {
    var c := FromName(key).value;
    CategoryButton(c, selected == c, Info(c).emoji, Info(c).titleKey)
  }

  /** `categoryKeys.map(...)`: one button per key of the table, active when it is the selected category. */
  function CategoryButtons(selected: Category): (r: seq<CategoryButton>)
    ensures |r| == |CategoryKeys|
    ensures forall i :: 0 <= i < |r| ==> Name(r[i].category) == CategoryKeys[i]
    ensures forall i :: 0 <= i < |r| ==> r[i].emoji == Info(r[i].category).emoji
                                         && r[i].titleKey == Info(r[i].category).titleKey
    ensures forall i :: 0 <= i < |r| ==> (r[i].isActive <==> r[i].category == selected)
  {
    KeysNameCategories();
    seq(|CategoryKeys|, i requires 0 <= i < |CategoryKeys| => ButtonFor(CategoryKeys[i], selected))
  }

  /** Button i selects the table's i-th category. */
  lemma {:induction false} ButtonCategoryIsTableEntry(selected: Category, i: int)
    requires 0 <= i < |CategoryTable|
    ensures CategoryButtons(selected)[i].category == CategoryTable[i]
  {
    var b := CategoryButtons(selected)[i];
    NameNamesCategory(b.category);
    NameNamesCategory(CategoryTable[i]);
    assert Name(b.category) == Name(CategoryTable[i]);
  }

  predicate HasButton(buttons: seq<CategoryButton>, c: Category) {
    exists i :: 0 <= i < |buttons| && buttons[i].category == c
  }

  /** Where a category sits in the table. */
  function TableIndexOf(c: Category): (i: int)
    ensures 0 <= i < |CategoryTable| && CategoryTable[i] == c
  {
    match c
    case Finance => 0 case Collectibles => 1 case Gaming => 2
    case Metaverse => 3 case Social => 4 case Technology => 5
  }

  /** The table lists each category once. */
  lemma TableDistinct()
    ensures forall i, j :: 0 <= i < j < |CategoryTable| ==> CategoryTable[i] != CategoryTable[j]
  {
  }

  /** Whatever category is selected, every category has a button, and exactly one button is active: the selected one. */
  lemma {:induction false} ExactlyOneActiveButton(selected: Category)
    ensures var r := CategoryButtons(selected);
            forall c :: HasButton(r, c)
    ensures var r := CategoryButtons(selected);
            exists i :: 0 <= i < |r| && r[i].isActive
    ensures var r := CategoryButtons(selected);
            forall i, j :: 0 <= i < |r| && 0 <= j < |r| && r[i].isActive && r[j].isActive ==> i == j
  {
    var r := CategoryButtons(selected);
    forall i | 0 <= i < |r| ensures r[i].category == CategoryTable[i] {
      ButtonCategoryIsTableEntry(selected, i);
    }
    forall c ensures HasButton(r, c) {
      var i := TableIndexOf(c);
      assert r[i].category == c;
    }
    var k := TableIndexOf(selected);
    assert r[k].isActive;
    TableDistinct();
  }
}
