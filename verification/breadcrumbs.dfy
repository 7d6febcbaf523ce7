/**
 * Breadcrumb derivation (src/components/Breadcrumbs/index.tsx): from a page
 * slug, the router's locale and path, and a start depth, the ordered list of
 * crumbs shown above a page and which of them is the current page.
 *
 * The translation function `t` is a parameter.
 */
module Breadcrumbs {
  import opened Wrappers
  import opened Strings

  datatype Crumb = Crumb(fullPath: string, text: string)

  /** A rendered crumb: its link target, its label and whether it is the current page. */
  datatype CrumbItem = CrumbItem(fullPath: string, text: string, isCurrentPage: bool)

  const HomeTitleKey: string := "page-index-meta-title"

  function HomeCrumb(t: string -> string): Crumb {
    Crumb("/", t(HomeTitleKey))
  }

  /** The slug with its first "/<locale>/" replaced by "/". */
  function StripLocale(slug: string, locale: string): string {
    ReplaceFirst(slug, "/" + locale + "/", "/")
  }

  /**
   * One crumb per non-empty "/"-piece of the slug, in slug order. The link of
   * the crumb for the i-th non-empty piece joins the first i + 2 raw pieces,
   * empty ones included, and appends "/".
   */
  function SegmentCrumbs(slug: string, t: string -> string): (r: seq<Crumb>)
    ensures |r| == |KeepNonEmpty(Split(slug, '/'))|
    ensures forall i :: 0 <= i < |r| ==> r[i].text == t(KeepNonEmpty(Split(slug, '/'))[i])
  {
    var chunks := Split(slug, '/');
    var segments := KeepNonEmpty(chunks);
    seq(|segments|, i requires 0 <= i < |segments| =>
      Crumb(Join(SliceTo(chunks, i + 2), '/') + "/", t(segments[i])))
  }

  /** The source's array literal: the optional home crumb, a hole (the stray comma), then the segment crumbs. */
  function CrumbSlots(hasHome: bool, home: Crumb, segments: seq<Crumb>): seq<Option<Crumb>> {
    (if hasHome then [Some(home)] else []) + [None] + Wrap(segments)
  }

  function Wrap(cs: seq<Crumb>): (r: seq<Option<Crumb>>)
    ensures |r| == |cs|
    ensures forall i :: 0 <= i < |r| ==> r[i] == Some(cs[i])
  {
    seq(|cs|, i requires 0 <= i < |cs| => Some(cs[i]))
  }

  /** `.filter((item): item is Crumb => !!item)`: the filled slots, in order. */
  function Present(slots: seq<Option<Crumb>>): (r: seq<Crumb>)
    ensures |r| <= |slots|
    ensures forall c :: c in r <==> Some(c) in slots
    decreases |slots|
  {
    if |slots| == 0 then []
    else if slots[0].None? then Present(slots[1..])
    else [slots[0].value] + Present(slots[1..])
  }

  /** The filter works slot by slot, so it keeps the order of the crumbs it keeps. */
  lemma {:induction false} PresentAppend(a: seq<Option<Crumb>>, b: seq<Option<Crumb>>)
    ensures Present(a + b) == Present(a) + Present(b)
    decreases |a|
  {
    if |a| == 0 {
      assert a + b == b;
    } else {
      assert (a + b)[0] == a[0];
      assert (a + b)[1..] == a[1..] + b;
      PresentAppend(a[1..], b);
    }
  }

  lemma {:induction false} PresentWrap(cs: seq<Crumb>)
    ensures Present(Wrap(cs)) == cs
    decreases |cs|
  {
    if |cs| > 0 {
      assert Wrap(cs)[1..] == Wrap(cs[1..]);
      PresentWrap(cs[1..]);
      assert [cs[0]] + cs[1..] == cs;
    }
  }

  /** The trail the page means to show: the home crumb (unless at the site root), then one crumb per segment. */
  function FullTrail(slug: string, asPath: string, t: string -> string): seq<Crumb> {
    (if asPath != "/" then [HomeCrumb(t)] else []) + SegmentCrumbs(slug, t)
  }

  /** Filtering the filled slots removes exactly the hole, whatever the home choice. */
  lemma HoleDropped(hasHome: bool, home: Crumb, segments: seq<Crumb>)
    ensures Present(CrumbSlots(hasHome, home, segments)) == (if hasHome then [home] else []) + segments
  {
    var h: seq<Option<Crumb>> := if hasHome then [Some(home)] else [];
    PresentAppend(h + [None], Wrap(segments));
    PresentAppend(h, [None]);
    PresentWrap(segments);
    assert Present([None]) == [];
    if hasHome {
      assert Present(h) == [home] + Present(h[1..]);
    }
  }

  /**
   * The crumbs the component renders. `startDepth` defaults to 0 and is applied
   * with `Array.prototype.slice`, so a negative value keeps the last crumbs.
   */
  function Crumbs(originalSlug: string, locale: string, asPath: string, startDepth: Option<int>,
                  t: string -> string): (r: seq<Crumb>)
    ensures r == SliceFrom(FullTrail(StripLocale(originalSlug, locale), asPath, t), startDepth.GetOr(0))
  {
    var slug := StripLocale(originalSlug, locale);
    var hasHome := asPath != "/";
    var segments := SegmentCrumbs(slug, t);
    HoleDropped(hasHome, HomeCrumb(t), segments);
    SliceFrom(Present(CrumbSlots(hasHome, HomeCrumb(t), segments)), startDepth.GetOr(0))
  }

  /** The rendered items: each crumb is the current page exactly when its link is the locale-stripped slug. */
  function Items(originalSlug: string, locale: string, asPath: string, startDepth: Option<int>,
                 t: string -> string): (r: seq<CrumbItem>)
    ensures |r| == |Crumbs(originalSlug, locale, asPath, startDepth, t)|
    ensures forall i :: 0 <= i < |r| ==>
              Crumb(r[i].fullPath, r[i].text) == Crumbs(originalSlug, locale, asPath, startDepth, t)[i]
    ensures forall i :: 0 <= i < |r| ==>
              (r[i].isCurrentPage <==> r[i].fullPath == StripLocale(originalSlug, locale))
  {
    var slug := StripLocale(originalSlug, locale);
    var crumbs := Crumbs(originalSlug, locale, asPath, startDepth, t);
    seq(|crumbs|, i requires 0 <= i < |crumbs| =>
      CrumbItem(crumbs[i].fullPath, crumbs[i].text, slug == crumbs[i].fullPath))
  }

  /** No segment crumb links to the site root "/". */
  lemma SegmentPathsAreNotRoot(slug: string, t: string -> string)
    ensures forall i :: 0 <= i < |SegmentCrumbs(slug, t)| ==> |SegmentCrumbs(slug, t)[i].fullPath| >= 2
  {
    var chunks := Split(slug, '/');
    var segments := KeepNonEmpty(chunks);
    forall i | 0 <= i < |SegmentCrumbs(slug, t)|
      ensures |SegmentCrumbs(slug, t)[i].fullPath| >= 2
    {
      var prefix := SliceTo(chunks, i + 2);
      if |chunks| >= 2 {
        assert |prefix| >= 2;
        assert Join(prefix, '/') == prefix[0] + ['/'] + Join(prefix[1..], '/');
      } else {
        assert segments[i] in segments;
        assert chunks == [chunks[0]];
        assert prefix == chunks;
        assert Join(prefix, '/') == chunks[0];
      }
    }
  }

  /** With no start depth, the first crumb is the home crumb exactly when the router path is not "/". */
  lemma HomeFirstIffNotRoot(originalSlug: string, locale: string, asPath: string, t: string -> string)
    ensures var r := Crumbs(originalSlug, locale, asPath, None, t);
            (|r| > 0 && r[0] == HomeCrumb(t)) <==> asPath != "/"
  {
    var slug := StripLocale(originalSlug, locale);
    SegmentPathsAreNotRoot(slug, t);
    var r := Crumbs(originalSlug, locale, asPath, None, t);
    assert r == FullTrail(slug, asPath, t);
  }

  /** A start depth of 1 with a home crumb removes exactly the home crumb. */
  lemma StartDepthOneDropsHome(originalSlug: string, locale: string, asPath: string, t: string -> string)
    requires asPath != "/"
    ensures Crumbs(originalSlug, locale, asPath, Some(1), t) == SegmentCrumbs(StripLocale(originalSlug, locale), t)
  {
  }

  /** "/s1/s2/…/sn/": the directory path of the given segments. */
  function DirPath(segments: seq<string>): string
    decreases |segments|
  {
    if |segments| == 0 then "/"
    else DirPath(segments[..|segments| - 1]) + segments[|segments| - 1] + "/"
  }

  predicate PlainSegments(segments: seq<string>) {
    forall k :: 0 <= k < |segments| ==> segments[k] != "" && '/' !in segments[k]
  }

  lemma {:induction false} DirPathIsJoin(segments: seq<string>)
    ensures DirPath(segments) == Join([""] + segments, '/') + "/"
    decreases |segments|
  {
    if |segments| > 0 {
      var init := segments[..|segments| - 1];
      var last := segments[|segments| - 1];
      DirPathIsJoin(init);
      assert [""] + segments == ([""] + init) + [last];
      JoinSnoc([""] + init, last, '/');
    }
  }

  lemma DirPathSplits(segments: seq<string>)
    requires PlainSegments(segments)
    ensures Split(DirPath(segments), '/') == [""] + segments + [""]
  {
    DirPathIsJoin(segments);
    JoinSnoc([""] + segments, "", '/');
    var parts := [""] + segments + [""];
    assert forall k :: 0 <= k < |parts| ==> '/' !in parts[k] by {
      forall k | 0 <= k < |parts| ensures '/' !in parts[k] {
        if 0 < k < |parts| - 1 {
          assert parts[k] == segments[k - 1];
        }
      }
    }
    SplitJoin(parts, '/');
    assert Join(parts, '/') == Join([""] + segments, '/') + ['/'] + "";
    assert Join(parts, '/') == DirPath(segments);
  }

  lemma {:induction false} DirPathGrows(segments: seq<string>, k: nat)
    requires PlainSegments(segments)
    requires k < |segments|
    ensures |DirPath(segments[..k])| < |DirPath(segments)|
    decreases |segments|
  {
    var init := segments[..|segments| - 1];
    assert init[..k] == segments[..k];
    if k < |init| {
      DirPathGrows(init, k);
    }
  }

  /** The crumb for the i-th segment, as the component builds it. */
  lemma SegmentCrumbAt(slug: string, t: string -> string, i: nat)
    requires i < |SegmentCrumbs(slug, t)|
    ensures var chunks := Split(slug, '/');
            SegmentCrumbs(slug, t)[i] == Crumb(Join(SliceTo(chunks, i + 2), '/') + "/", t(KeepNonEmpty(chunks)[i]))
  {
    var chunks := Split(slug, '/');
    var segments := KeepNonEmpty(chunks);
    var crumbs := SegmentCrumbs(slug, t);
    assert crumbs[i] == Crumb(Join(SliceTo(chunks, i + 2), '/') + "/", t(segments[i]));
  }

  /** The "/"-pieces of "/s1/…/sn/" and its non-empty ones. */
  lemma ChunksOfDirPath(segments: seq<string>)
    requires PlainSegments(segments)
    ensures Split(DirPath(segments), '/') == [""] + segments + [""]
    ensures KeepNonEmpty(Split(DirPath(segments), '/')) == segments
  {
    DirPathSplits(segments);
    KeepNonEmptyAppend([""] + segments, [""]);
    KeepNonEmptyAppend([""], segments);
    KeepNonEmptyIdentity(segments);
  }

  /**
   * For a locale-stripped slug "/s1/…/sn/" of plain segments, crumb i of the
   * segment trail links to "/s1/…/si/" and is labelled t(si).
   */
  lemma SegmentTrailOfDirPath(segments: seq<string>, t: string -> string)
    requires PlainSegments(segments)
    ensures |SegmentCrumbs(DirPath(segments), t)| == |segments|
    ensures forall i :: 0 <= i < |segments| ==>
              SegmentCrumbs(DirPath(segments), t)[i] == Crumb(DirPath(segments[..i + 1]), t(segments[i]))
  {
    var slug := DirPath(segments);
    ChunksOfDirPath(segments);
    var chunks := Split(slug, '/');
    forall i | 0 <= i < |segments|
      ensures SegmentCrumbs(slug, t)[i] == Crumb(DirPath(segments[..i + 1]), t(segments[i]))
    {
      SegmentCrumbAt(slug, t, i);
      assert SliceTo(chunks, i + 2) == [""] + segments[..i + 1];
      DirPathIsJoin(segments[..i + 1]);
    }
  }

  /** The full trail of "/s1/…/sn/": the optional home crumb, then crumb i linking to "/s1/…/si/". */
  lemma TrailOfDirPath(segments: seq<string>, asPath: string, t: string -> string)
    requires PlainSegments(segments)
    ensures var trail := FullTrail(DirPath(segments), asPath, t);
            var h := if asPath != "/" then 1 else 0;
            && |trail| == h + |segments|
            && (asPath != "/" ==> trail[0] == HomeCrumb(t))
            && forall i :: 0 <= i < |segments| ==> trail[i + h] == Crumb(DirPath(segments[..i + 1]), t(segments[i]))
  {
    var slug := DirPath(segments);
    SegmentTrailOfDirPath(segments, t);
    var segs := SegmentCrumbs(slug, t);
    if asPath != "/" {
      assert FullTrail(slug, asPath, t) == [HomeCrumb(t)] + segs;
      forall i | 0 <= i < |segments| ensures ([HomeCrumb(t)] + segs)[i + 1] == segs[i] {
      }
    } else {
      assert FullTrail(slug, asPath, t) == [] + segs;
      assert [] + segs == segs;
    }
  }

  /** Among the crumbs, exactly the last one links to `target`. */
  predicate OnlyLastLinksTo(crumbs: seq<Crumb>, target: string) {
    forall j :: 0 <= j < |crumbs| ==> (crumbs[j].fullPath == target <==> j == |crumbs| - 1)
  }

  /**
   * A root crumb (optional) followed by crumbs linking to "/s1/", "/s1/s2/", …,
   * "/s1/…/sn/": only the last links to "/s1/…/sn/".
   */
  lemma OnlyLastOfDirTrail(home: seq<Crumb>, crumbs: seq<Crumb>, segments: seq<string>)
    requires PlainSegments(segments) && |segments| >= 1
    requires |home| <= 1 && (|home| == 1 ==> home[0].fullPath == "/")
    requires |crumbs| == |segments|
    requires forall i :: 0 <= i < |crumbs| ==> crumbs[i].fullPath == DirPath(segments[..i + 1])
    ensures OnlyLastLinksTo(home + crumbs, DirPath(segments))
  {
    var slug := DirPath(segments);
    var trail := home + crumbs;
    assert segments[..0] == [];
    DirPathGrows(segments, 0);
    forall j | 0 <= j < |trail| ensures trail[j].fullPath == slug <==> j == |trail| - 1 {
      if j < |home| {
        assert trail[j] == home[0];
      } else {
        var i := j - |home|;
        assert trail[j] == crumbs[i];
        if i + 1 < |segments| {
          DirPathGrows(segments, i + 1);
        } else {
          assert segments[..i + 1] == segments;
        }
      }
    }
  }

  /** In the full trail of "/s1/…/sn/" (n >= 1), only the last crumb links to the slug itself. */
  lemma TrailCurrentIsLast(segments: seq<string>, asPath: string, t: string -> string)
    requires PlainSegments(segments) && |segments| >= 1
    ensures OnlyLastLinksTo(FullTrail(DirPath(segments), asPath, t), DirPath(segments))
  {
    var slug := DirPath(segments);
    SegmentTrailOfDirPath(segments, t);
    var home: seq<Crumb> := if asPath != "/" then [HomeCrumb(t)] else [];
    var crumbs := SegmentCrumbs(slug, t);
    assert FullTrail(slug, asPath, t) == home + crumbs;
    OnlyLastOfDirTrail(home, crumbs, segments);
  }

  /** A suffix of a trail whose last crumb alone links to `target` keeps that property. */
  lemma SuffixKeepsOnlyLastCurrent(trail: seq<Crumb>, start: int, target: string)
    requires OnlyLastLinksTo(trail, target)
    ensures OnlyLastLinksTo(SliceFrom(trail, start), target)
  {
    var s := SliceFrom(trail, start);
    forall i | 0 <= i < |s| ensures s[i].fullPath == target <==> i == |s| - 1 {
      assert s[i] == trail[|trail| - |s| + i];
    }
  }

  /**
   * For every slug that strips to "/s1/…/sn/" (n >= 1, plain segments),
   * whatever the router path and start depth, only the last rendered crumb is
   * marked as the current page.
   */
  lemma OnlyLastIsCurrent(locale: string, asPath: string, startDepth: Option<int>,
                          t: string -> string, segments: seq<string>)
    requires PlainSegments(segments) && |segments| >= 1
    ensures forall originalSlug :: StripLocale(originalSlug, locale) == DirPath(segments) ==>
              var r := Items(originalSlug, locale, asPath, startDepth, t);
              forall i :: 0 <= i < |r| ==> (r[i].isCurrentPage <==> i == |r| - 1)
  {
    var slug := DirPath(segments);
    var trail := FullTrail(slug, asPath, t);
    TrailCurrentIsLast(segments, asPath, t);
    SuffixKeepsOnlyLastCurrent(trail, startDepth.GetOr(0), slug);
    forall originalSlug | StripLocale(originalSlug, locale) == slug
      ensures var r := Items(originalSlug, locale, asPath, startDepth, t);
              forall i :: 0 <= i < |r| ==> (r[i].isCurrentPage <==> i == |r| - 1)
    {
      assert Crumbs(originalSlug, locale, asPath, startDepth, t) == SliceFrom(trail, startDepth.GetOr(0));
    }
  }

  /** A slug that starts with "/<locale>/" loses exactly that prefix. */
  lemma StripLeadingLocale(locale: string, rest: string)
    ensures StripLocale("/" + locale + "/" + rest, locale) == "/" + rest
  {
    var p := "/" + locale + "/";
    var s := p + rest;
    assert s[0..|p|] == p;
    assert OccursAt(s, p, 0);
    assert s[|p|..] == rest;
  }

  /** Only the first "/<locale>/" is replaced: a repeated locale prefix keeps its second copy. */
  lemma OnlyFirstLocaleStripped(locale: string, rest: string)
    ensures StripLocale("/" + locale + "/" + locale + "/" + rest, locale) == "/" + locale + "/" + rest
  {
    var tail := locale + "/" + rest;
    assert "/" + locale + "/" + locale + "/" + rest == "/" + locale + "/" + tail;
    assert "/" + tail == "/" + locale + "/" + rest;
    StripLeadingLocale(locale, tail);
  }

  lemma {:induction false} DirPathStartsWithSlash(segments: seq<string>)
    ensures |DirPath(segments)| >= 1 && DirPath(segments)[0] == '/'
    decreases |segments|
  {
    if |segments| > 0 {
      DirPathStartsWithSlash(segments[..|segments| - 1]);
    }
  }

  /** "/<locale>" followed by a path that starts with "/" strips back to that path. */
  lemma LocalizedPathStrips(locale: string, path: string)
    requires |path| >= 1 && path[0] == '/'
    ensures StripLocale("/" + locale + path, locale) == path
  {
    var rest := path[1..];
    assert path == "/" + rest;
    assert "/" + locale + path == "/" + locale + "/" + rest;
    StripLeadingLocale(locale, rest);
  }

  /**
   * The trail of "/<locale>/s1/…/sn/": the home crumb when the router path is
   * not "/", then crumb i linking to the locale-stripped "/s1/…/si/" with label
   * t(si).
   */
  lemma LocalizedTrail(locale: string, segments: seq<string>, asPath: string, t: string -> string)
    requires PlainSegments(segments)
    ensures var r := Crumbs("/" + locale + DirPath(segments), locale, asPath, None, t);
            && |r| == (if asPath != "/" then 1 else 0) + |segments|
            && (asPath != "/" ==> r[0] == HomeCrumb(t))
            && forall i :: 0 <= i < |segments| ==>
                 r[i + (if asPath != "/" then 1 else 0)] == Crumb(DirPath(segments[..i + 1]), t(segments[i]))
  {
    var dir := DirPath(segments);
    DirPathStartsWithSlash(segments);
    LocalizedPathStrips(locale, dir);
    TrailOfDirPath(segments, asPath, t);
    assert Crumbs("/" + locale + dir, locale, asPath, None, t) == FullTrail(dir, asPath, t);
  }
}
