/** Defaults the layouts derive from a page's frontmatter (src/lib/interfaces.ts fields). */
module Frontmatter {
  import opened Wrappers

  /** `sidebarDepth || 2`: an absent depth and a depth of 0 (falsy) both become 2. */
  function TocMaxDepth(sidebarDepth: Option<int>): (r: int)
    ensures r != 0
    ensures sidebarDepth.Some? && sidebarDepth.value != 0 ==> r == sidebarDepth.value
    ensures sidebarDepth.None? || sidebarDepth == Some(0) ==> r == 2
  {
    match sidebarDepth
    case Some(d) => if d != 0 then d else 2
    case None => 2
  }

  /** `!!hideEditButton`: only an explicit `true` hides the edit button. */
  function HideEditButton(flag: Option<bool>): (r: bool)
    ensures r <==> flag == Some(true)
  {
    flag.GetOr(false)
  }
}
