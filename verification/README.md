# ethereum.org website core, modelled in Dafny

This project models the decision logic of a handful of ethereum.org website
components and library files. Dafny proves properties about the model.

- **Breadcrumbs.** From a page slug, the router's locale and path, and a
  start depth, it derives the crumb trail shown above a page. It also
  decides which crumb is the current page.
- **Centralized exchanges hook.** It builds the sorted country options and
  handles the country selection. It lists the shuffled cards of the
  exchanges that serve the selected country. In the United States, a card
  for an exchange with excluded states carries a caveat naming them.
- **dApps page categories.** The page reads its category from the
  `category` query parameter and may scroll to the explore section on load.
  Choosing a category pushes a URL. Each category may have a benefits block
  and a "more" link.
- **GitHub repository data.** The owner and name come from a repository
  URL. The model covers the two API requests, their error paths, and the
  merge of the star count and the first two languages into each
  local-environment framework.
- **Layouts.** The use-case layout picks its hero variant from the slug and
  sets the image widths and the edit link. The static layout builds its edit
  link from the configured repository and chooses between the guides hero
  and breadcrumbs. The roadmap layout chooses between the hub hero and a
  title card, and renders the frontmatter's buttons. The use-case and static layouts
  set the table-of-contents depth from the frontmatter.
- **Roadmap action card.** It chooses its image by key and falls back to
  the future-proofing image. The lookup as written and the intended lookup
  are both modelled (see Findings).
- **Site constants.** These include the locale list from the build
  environment or the i18n configuration.

Inputs from the environment become parameters:

- the translation function `t`;
- `Intl.ListFormat`;
- the `localeCompare` collation, taken as an abstract total preorder;
- lodash's random draws;
- `fetch`;
- `process.env`;
- whether `window` and the explore anchor exist.

Browser effects (`scrollTo`, `history.pushState`) are returned as data.

Three behaviours follow the code, not its comments:

- The breadcrumb component's comment shows crumbs with "/en/" paths. The
  code strips the first "/<locale>/" from the slug, so every crumb path, and
  the current-page test, uses the locale-free slug.
- In the dApps page's mobile branch, `updatePath` appends "#explore" and
  then drops the result. Nothing is pushed and nothing navigates.
- On load, the dApps page scrolls whenever the raw query is non-empty. This
  holds even when the query names no category and the page falls back to
  finance.

## Model

| member | source | states |
|---|---|---|
| Strings.IndexOf | src/layouts/UseCases.tsx:103-106 | the position of the first occurrence of the pattern, if any: it occurs there and at no earlier position; there is none exactly when it occurs nowhere (`includes` is `IndexOf(s, p).Some?`) |
| Strings.ReplaceFirst | src/components/Breadcrumbs/index.tsx:44 | `String.prototype.replace` with a string pattern: if the pattern never occurs the input is returned; otherwise only its first occurrence is replaced and everything before and after it is kept |
| Strings.Split | src/components/Breadcrumbs/index.tsx:45 | `split` on one character yields at least one piece, keeps empty pieces, and no piece contains the separator |
| Strings.JoinSplit | src/lib/constants.ts:15 | joining the pieces of a split with the separator gives back the original string |
| Strings.SplitJoin | src/lib/api/ghRepoData.ts:126 | splitting a join of separator-free pieces gives back exactly those pieces |
| Strings.KeepNonEmpty | src/components/Breadcrumbs/index.tsx:46 | `filter((item) => !!item)` keeps exactly the non-empty pieces |
| Strings.KeepNonEmptyAppend | src/components/Breadcrumbs/index.tsx:46 | the filter keeps the kept pieces in their order: filtering a concatenation is the concatenation of the filtered parts |
| Strings.KeepNonEmptyCounts | src/components/Breadcrumbs/index.tsx:46 | the filter drops every empty piece and keeps each other piece exactly as often as it occurs |
| Strings.SliceFrom | src/components/Breadcrumbs/index.tsx:65 | `slice(start)`: a non-negative start drops that many leading items; a negative one keeps that many trailing items; the kept items are a suffix of the input |
| Strings.SliceTo | src/lib/api/ghRepoData.ts:171 | `slice(0, n)` keeps the first min(n, length) items unchanged |
| Constants.LocalesCodes | src/lib/constants.ts:13-16 | an unset or empty build variable gives the configured codes; otherwise the result is comma-free codes that join back to the variable |
| Constants.LocalesCodesFromBuildList | src/lib/constants.ts:14-16 | a build variable written as comma-free codes joined by commas yields exactly those codes in order |
| Breadcrumbs.SegmentCrumbs | src/components/Breadcrumbs/index.tsx:45-62 | one crumb per non-empty slug piece, in slug order, labelled with the translation of that piece |
| Breadcrumbs.Present | src/components/Breadcrumbs/index.tsx:64 | the filter keeps exactly the filled slots of the array literal |
| Breadcrumbs.PresentAppend | src/components/Breadcrumbs/index.tsx:64 | the filter keeps the crumbs in slot order: filtering a concatenation is the concatenation of the filtered parts |
| Breadcrumbs.HoleDropped | src/components/Breadcrumbs/index.tsx:48-64 | filtering the array literal with its stray hole leaves the optional home crumb followed by the segment crumbs |
| Breadcrumbs.Crumbs | src/components/Breadcrumbs/index.tsx:35-65 | the rendered crumbs are the intended trail (home crumb unless the router path is "/", then the segment crumbs of the locale-stripped slug) sliced from the start depth, default 0 |
| Breadcrumbs.Items | src/components/Breadcrumbs/index.tsx:69-72 | one item per crumb with its path and text; an item is the current page exactly when its path equals the locale-stripped slug |
| Breadcrumbs.SegmentPathsAreNotRoot | src/components/Breadcrumbs/index.tsx:59-62 | no segment crumb links to "/" (each path has at least two characters) |
| Breadcrumbs.HomeFirstIffNotRoot | src/components/Breadcrumbs/index.tsx:43-57 | without a start depth the first crumb is the home crumb exactly when the router path is not "/" |
| Breadcrumbs.StartDepthOneDropsHome | src/components/Breadcrumbs/index.tsx:29-34 | with a home crumb, a start depth of 1 leaves exactly the segment crumbs |
| Breadcrumbs.SegmentTrailOfDirPath | src/components/Breadcrumbs/index.tsx:59-62 | for a slug "/s1/…/sn/" crumb i links to "/s1/…/si/" and is labelled t(si) |
| Breadcrumbs.TrailOfDirPath | src/components/Breadcrumbs/index.tsx:48-63 | the trail of "/s1/…/sn/" is the optional home crumb followed by the crumbs linking to "/s1/…/si/" |
| Breadcrumbs.TrailCurrentIsLast | src/components/Breadcrumbs/index.tsx:70 | in the trail of "/s1/…/sn/" (n ≥ 1) only the last crumb links to the slug itself |
| Breadcrumbs.OnlyLastIsCurrent | src/components/Breadcrumbs/index.tsx:65-72 | for every slug whose locale-stripped form is "/s1/…/sn/" (n ≥ 1), and any router path and start depth, only the last rendered item is marked as the current page |
| Breadcrumbs.StripLeadingLocale | src/components/Breadcrumbs/index.tsx:44 | a slug "/<locale>/rest" becomes "/rest" |
| Breadcrumbs.OnlyFirstLocaleStripped | src/components/Breadcrumbs/index.tsx:44 | only the first "/<locale>/" is replaced: "/<locale>/<locale>/rest" becomes "/<locale>/rest" |
| Breadcrumbs.LocalizedPathStrips | src/components/Breadcrumbs/index.tsx:44 | "/<locale>" followed by a path starting with "/" strips back to that path |
| Breadcrumbs.LocalizedTrail | src/components/Breadcrumbs/index.tsx:22-28 | the crumbs of "/<locale>/s1/…/sn/" are the optional home crumb, then crumb i linking to the locale-free "/s1/…/si/" labelled t(si) |
| Sorting.SortBy | src/hooks/useCentralizedExchanges.ts:295 | the sort result is ordered by key under the collation and is a permutation of the input |
| Shuffle.Shuffle | src/hooks/useCentralizedExchanges.ts:322 | lodash `shuffle` keeps the length and is a permutation of its input for any draws |
| Exchanges.SelectOptions | src/hooks/useCentralizedExchanges.ts:287-295 | one option per country with value and label equal to the country, carrying its exchanges; sorted by value; a permutation of the mapped table |
| Exchanges.HandleSelectChange | src/hooks/useCentralizedExchanges.ts:297-306 | the chosen option becomes the selection; a country then counts as selected exactly when its value is non-empty |
| Exchanges.ServingExchanges | src/hooks/useCentralizedExchanges.ts:323-324 | an exchange is kept exactly when it is in the table and its key is in the country's list |
| Exchanges.ServingExchangesAppend | src/hooks/useCentralizedExchanges.ts:323-324 | the filter keeps table order: it distributes over concatenation |
| Exchanges.ServingExchangesDistinct | src/hooks/useCentralizedExchanges.ts:308-324 | a table whose keys are distinct yields serving exchanges with distinct keys |
| Exchanges.ToCard | src/hooks/useCentralizedExchanges.ts:326-344 | a card keeps the exchange's name, URL and image with an empty alt; it has a description exactly for the United States with a non-empty exception list, reading the translated "except" followed by the formatted list |
| Exchanges.FilteredExchanges | src/hooks/useCentralizedExchanges.ts:317-347 | no cards without a selected country; otherwise a permutation of the serving exchanges' cards, one per serving exchange |
| Exchanges.FilteredCardsAreServingExchanges | src/hooks/useCentralizedExchanges.ts:319-347 | for any draws, a card is shown exactly when it is the card of a table exchange serving the selected country |
| Exchanges.HasResultsIffServed | src/hooks/useCentralizedExchanges.ts:349 | there are results exactly when a country is selected and some table exchange serves it |
| Exchanges.NoCaveatOutsideUnitedStates | src/hooks/useCentralizedExchanges.ts:330-337 | outside the United States no card carries a description |
| Dapps.FromName | src/pages/dapps.tsx:447-456 | a token names a category exactly when it equals that category's enum value |
| Dapps.ResolveCategory | src/pages/dapps.tsx:442-457 | an empty or missing query gives finance; otherwise the first comma token if it names a category, else finance; the result is always one of the six categories |
| Dapps.OnQueryChange | src/pages/dapps.tsx:440-464 | on a query change the category is resolved; the scroll is requested exactly when `window` and the explore anchor exist and the query is non-empty |
| Dapps.UpdatePath | src/pages/dapps.tsx:466-484 | nothing is pushed in the mobile case or without `window`; otherwise "/<locale>/dapps/?category=<c>" is pushed, with finance for an empty value |
| Dapps.HandleCategorySelect | src/pages/dapps.tsx:486-492 | the chosen category becomes selected; its URL is pushed exactly outside the mobile case with `window` |
| Dapps.SelectionRoundTrip | src/pages/dapps.tsx:440-492 | loading the URL pushed for a category (any locale without "?") selects that same category again |
| Dapps.NameRoundTrip | src/pages/dapps.tsx:442-456 | a category's value, alone or followed by more comma tokens, resolves to that category |
| Dapps.UnknownQueryFallsBackButScrolls | src/pages/dapps.tsx:442-463 | any non-empty query whose first comma token names no category resolves to finance, and the scroll is still requested exactly when `window` and the explore anchor exist |
| Dapps.Benefits | src/pages/dapps.tsx:1769-1811 | the benefits block appears exactly for a category with benefits, and shows that category's benefit cards and title |
| Dapps.BenefitsByCategory | src/pages/dapps.tsx:567-673 | finance, collectibles, gaming and metaverse have benefits (4, 4, 3 and 2 cards); social and technology do not; the "more" link goes to /defi/ for finance and /nft/ for collectibles and gaming, and is absent otherwise |
| Dapps.CategoryButtons | src/pages/dapps.tsx:1424-1444 | one button per key of the `categories` table in key order, each showing its category's emoji and title, and active exactly when its category is the selected one |
| Dapps.ExactlyOneActiveButton | src/pages/dapps.tsx:567-675 | for any selected category every category has a button, and exactly one button is active |
| GhRepoData.LanguagesEndpoint | src/lib/api/ghRepoData.ts:144-145 | the languages endpoint is the repository endpoint followed by "/languages" |
| GhRepoData.FetchRepoData | src/lib/api/ghRepoData.ts:125-162 | the repository is requested first. A rejected request, a non-ok reply (the repository error) or a rejected `json()` ends the call, and nothing else is requested. Otherwise the languages are requested, and the same three failures (with the language error for a non-ok reply) end the call. Else the star count and the language keys are returned |
| GhRepoData.OwnerAndNameAreLastPieces | src/lib/api/ghRepoData.ts:126-128 | for "…/<owner>/<name>" with slash-free owner and name, the owner and name are read back exactly |
| GhRepoData.GithubUrlEndpoint | src/lib/api/ghRepoData.ts:126-130 | "https://github.com/<owner>/<name>" is fetched from "https://api.github.com/repos/<owner>/<name>" |
| GhRepoData.OwnerOfUrlWithoutSlash | src/lib/api/ghRepoData.ts:126-128 | a URL without "/" gives the owner "undefined" and the whole URL as the name |
| GhRepoData.Merge | src/lib/api/ghRepoData.ts:168-172 | the merged framework keeps every field and adds the star count and at most the first two languages, in order |
| GhRepoData.FrameworkData | src/lib/api/ghRepoData.ts:164-176 | `Promise.all` over the frameworks: its own contract states only that a success has one entry per framework; FrameworkDataSucceeds and FrameworkDataFailsFirst carry the per-framework facts |
| GhRepoData.LocalEnvironmentFrameworkData | src/lib/api/ghRepoData.ts:164-176 | `getLocalEnvironmentFrameworkData`: the frameworks list merged with its repository data; a success has one entry per listed framework |
| GhRepoData.FrameworkDataSucceeds | src/lib/api/ghRepoData.ts:164-176 | the merge succeeds exactly when every framework's fetch succeeds, and then framework i is merged with its own data, in list order |
| GhRepoData.FrameworkDataFailsFirst | src/lib/api/ghRepoData.ts:164-176 | a failing merge carries the error of the first framework, in list order, whose fetch fails |
| GhRepoData.MergedFrameworksKeepFields | src/lib/api/ghRepoData.ts:166-172 | every merged framework keeps its id, URL and name and has at most two languages |
| Frontmatter.TocMaxDepth | src/layouts/Static.tsx:154 | `sidebarDepth \|\| 2`, used by the static layout and by the use-case hero (UseCases.tsx line 207): a non-zero depth is kept; an absent or zero depth becomes 2; the result is never 0 |
| Frontmatter.HideEditButton | src/layouts/Static.tsx:155 | `!!hideEditButton` is true exactly for an explicit `true` |
| UseCasesLayout.SelectUseCase | src/layouts/UseCases.tsx:101-108 | nft exactly when the slug contains "nft"; dao when it contains "dao" or "identity" but not "nft"; otherwise defi |
| UseCasesLayout.HeroImageMaxWidth | src/layouts/UseCases.tsx:227-233 | the base width is "full" exactly for defi, else "min(405px, 98%)"; the large width is 572px for dao, 80% for defi and 640px for nft |
| UseCasesLayout.AbsoluteEditPath | src/layouts/UseCases.tsx:99 | the edit link is the site's edit URL followed by the router path |
| UseCasesLayout.NftOverridesDao | src/layouts/UseCases.tsx:106-108 | any slug containing "nft" is an NFT page, whatever else it contains |
| UseCasesLayout.IdentityUsesDaoHero | src/layouts/UseCases.tsx:103-105 | a slug containing "identity" and no "nft" uses the DAO hero |
| StaticLayout.Repo | src/layouts/Static.tsx:94-95 | a set, non-empty repository variable is used; otherwise "ethereum/ethereum-org-website" |
| StaticLayout.AbsoluteEditPath | src/layouts/Static.tsx:96-97 | the edit link is the repository's content base, then the slug, then "index.md" |
| StaticLayout.DefaultBaseIsEditContentUrl | src/layouts/Static.tsx:94-96 | with the default repository the edit base is the site's edit URL followed by the content directory and "/" |
| StaticLayout.PageHeader | src/layouts/Static.tsx:110-128 | the guides hub hero exactly for "/guides/" (with the frontmatter title as header and an empty title); otherwise breadcrumbs for the slug and the last-updated line |
| StaticLayout.PageTocs | src/layouts/Static.tsx:149-167 | both tables of contents share the defaulted depth and the hide flag; only the desktop one carries the edit link |
| RoadmapLayout.RenderButton | src/layouts/Roadmap.tsx:152-167 | a button is a page link exactly when its `to` is truthy; otherwise it scrolls to `toId`; variant and label are kept |
| RoadmapLayout.RenderButtons | src/layouts/Roadmap.tsx:149-170 | one rendered button per frontmatter button, in order |
| RoadmapLayout.RenderButtonsAppend | src/layouts/Roadmap.tsx:151 | rendering distributes over concatenation of the button lists |
| RoadmapLayout.RoadmapHero | src/layouts/Roadmap.tsx:135-189 | the hub hero exactly for "/roadmap/"; otherwise a title card with breadcrumbs for the slug, the title, the description, the image with its alt (default ""), and a buttons row exactly when the frontmatter lists buttons |
| RoadmapActionCard.OwnImage | src/components/Roadmap/RoadmapActionCard.tsx:35-40 | the image table has exactly the keys futureProofing, scaling, security and userExperience |
| RoadmapActionCard.ImageAsWritten | src/components/Roadmap/RoadmapActionCard.tsx:41 | an own key gives its image; a key inherited from `Object.prototype` gives that member; any other key falls back to the future-proofing image |
| RoadmapActionCard.ImageFor | src/components/Roadmap/RoadmapActionCard.tsx:41 | an own key gives its image; every other key gives the future-proofing image |
| RoadmapActionCard.ConstructorKeySkipsFallback | src/components/Roadmap/RoadmapActionCard.tsx:41 | the key "constructor" reaches the image component as a non-image, where the intended lookup gives the future-proofing image |
| RoadmapActionCard.AsWrittenAgreesOffInheritedMembers | src/components/Roadmap/RoadmapActionCard.tsx:35-41 | the lookup as written agrees with the intended one exactly on keys that are not inherited member names |
| RoadmapActionCard.RenderCard | src/components/Roadmap/RoadmapActionCard.tsx:43-63 | the corrected card: the intended image for the key, and the props' alt, title, description, button text and link unchanged |
| RoadmapActionCard.RenderCardAsWritten | src/components/Roadmap/RoadmapActionCard.tsx:41-63 | the card as written hands the image component the lookup as written; it equals the corrected card except that an inherited member name hands over that member |

## Left out

- Rendering is not modelled: JSX, Chakra styling, breakpoints, images, emoji and `key` props.
- Analytics events (`trackCustomEvent`, the `matomo` fields' categories and actions) and `console.log` are not modelled.
- The use-case and roadmap dropdown menus are fixed link lists with no logic, so they are not modelled.
- The exchange table and the `exchangesByCountry` data are parameters. Their contents are site data.
- Translation (`t`), `Intl.ListFormat` and `localeCompare` are parameters. The collation is any total preorder. The sort is an insertion sort; its stability is not stated.
- The scroll offset (explore anchor minus 76 pixels, smooth) is not modelled. The scroll is a boolean.
- `window.history.pushState` is modelled as the URL returned.
- Referencing `window` during server rendering throws in JavaScript. The model takes `hasWindow` as a flag.
- `startDepth` is an optional integer. Fractional, NaN or string depths, which `slice` would coerce, are not modelled.
- `query.category` is an optional string. An array-valued query, which the cast hides, is not modelled.
- GhRepoData.FrameworkData: `Promise.all` issues every request at once and rejects with the first rejection in time. The model reports the first failing framework in list order and does not record the other frameworks' requests.
- GhRepoData.FetchRepoData: the request headers and token are not modelled. A rejection's reason is any string; the kinds of network and parse errors are not distinguished. A missing `stargazers_count` (undefined) is not modelled; the count is an integer. The language keys are taken in the reply's order.
- The contents of `i18n.config.json` are a parameter of Constants.LocalesCodes.
- `languagePathRootRegExp` in constants.ts is left out: it is a regular expression and no modelled code uses it. The Crowdin project constants and rates are left out too: no modelled code reads them.
- `getSummaryPoints` and the use-case summary list are not part of this model; src/lib/utils/getSummaryPoints.ts is not part of this model.
- `LeftNavBar` receives `frontmatter.sidebarDepth!` undefaulted in the use-case and roadmap layouts. It is not modelled, because it only passes the value through.
- The use-case hero image's alt (`alt || ""`), the static layout's right-to-left direction and the localized timestamp are not modelled.
- The roadmap image's fixed size and the hub hero image are not modelled.
- RoadmapActionCard.RenderCard: renders the corrected lookup `ImageFor`, as the rest of the model does. For the twelve inherited member names the program as written hands the image component that member instead; RoadmapActionCard.RenderCardAsWritten models that card.

## Findings

| source | as written | input that shows it | evidently intended | confidence | as-written member | corrected member |
|---|---|---|---|---|---|---|
| src/components/Roadmap/RoadmapActionCard.tsx:41 | `images[image] ?? images.futureProofing` indexes a plain object literal. A key naming an inherited `Object.prototype` member returns that member, which is not nullish, so the fallback is skipped | `image = "constructor"` hands the `Object` constructor to the image component as its source | any key outside the four images falls back to the future-proofing image | not executed | RoadmapActionCard.ImageAsWritten | RoadmapActionCard.ImageFor |
