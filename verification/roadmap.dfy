/**
 * The roadmap page layout's decisions (src/layouts/Roadmap.tsx): the hub hero
 * on the roadmap home, otherwise a title card with breadcrumbs, the
 * frontmatter's call-to-action buttons and the hero image.
 */
module RoadmapLayout {
  import opened Wrappers

  /** A frontmatter button: a page link when `to` is set, otherwise a scroll to `toId`. */
  datatype ButtonSpec = ButtonSpec(caption: string, toId: Option<string>, to: Option<string>, variant: Option<string>)

  datatype RoadmapFrontmatter = RoadmapFrontmatter(
    title: string, description: string, buttons: Option<seq<ButtonSpec>>,
    image: string, alt: Option<string>, sidebarDepth: Option<int>)

  datatype ButtonItem =
    | LinkButton(variant: Option<string>, to: string, caption: string)
    | ScrollButton(variant: Option<string>, toId: Option<string>, caption: string)

  /** `button?.to` is truthy: present and non-empty. */
  predicate LinksAway(b: ButtonSpec) {
    b.to.Some? && b.to.value != ""
  }

  function RenderButton(b: ButtonSpec): (r: ButtonItem)
    ensures r.LinkButton? <==> LinksAway(b)
    ensures r.LinkButton? ==> r.to == b.to.value
    ensures r.ScrollButton? ==> r.toId == b.toId
    ensures r.variant == b.variant && r.caption == b.caption
  {
    if LinksAway(b) then LinkButton(b.variant, b.to.value, b.caption)
    else ScrollButton(b.variant, b.toId, b.caption)
  }

  /** The buttons row: one rendered button per frontmatter button, in order. */
  function RenderButtons(specs: seq<ButtonSpec>): (r: seq<ButtonItem>)
    ensures |r| == |specs|
    ensures forall i :: 0 <= i < |specs| ==> r[i] == RenderButton(specs[i])
  {
    seq(|specs|, i requires 0 <= i < |specs| => RenderButton(specs[i]))
  }

  datatype Hero =
    | HubHero(header: string, heroTitle: string, description: string)
    | TitleCard(breadcrumbSlug: string, title: string, description: string,
                buttons: Option<seq<ButtonItem>>, image: string, alt: string)

  function RoadmapHero(slug: string, fm: RoadmapFrontmatter): (r: Hero)
    ensures r.HubHero? <==> slug == "/roadmap/"
    ensures r.HubHero? ==> r.header == fm.title && r.heroTitle == "" && r.description == fm.description
    ensures r.TitleCard? ==>
              && r.breadcrumbSlug == slug && r.title == fm.title && r.description == fm.description
              && r.image == fm.image && r.alt == fm.alt.GetOr("")
              && (r.buttons.Some? <==> fm.buttons.Some?)
              && (r.buttons.Some? ==> r.buttons.value == RenderButtons(fm.buttons.value))
  {
    if slug == "/roadmap/" then HubHero(fm.title, "", fm.description)
    else
      var buttons := match fm.buttons
        case Some(specs) => Some(RenderButtons(specs))
        case None => None;
      TitleCard(slug, fm.title, fm.description, buttons, fm.image, fm.alt.GetOr(""))
  }

  /** Rendering buttons commutes with concatenating the frontmatter lists. */
  lemma RenderButtonsAppend(a: seq<ButtonSpec>, b: seq<ButtonSpec>)
    ensures RenderButtons(a + b) == RenderButtons(a) + RenderButtons(b)
  {
    var l := RenderButtons(a + b);
    var rr := RenderButtons(a) + RenderButtons(b);
    assert |l| == |rr|;
    forall i | 0 <= i < |l| ensures l[i] == rr[i] {
      if i < |a| {
        assert (a + b)[i] == a[i];
      } else {
        assert (a + b)[i] == b[i - |a|];
      }
    }
  }

}
