/** The share link of an album: the address the site is served from, then the
    fragment "#/a/" and the slug. The slug travels in the fragment component
    of the URI (section 3.5 of RFC 3986), so the static host always serves the
    same document and the client-side router reads the slug. */
module PublicUrl {
  import opened Util

  /** The route of the public album page inside the fragment. */
  const AlbumRoute: string := "#/a/"

  /** getBaseUrl: `window.location.origin + window.location.pathname`; the two
      location parts are parameters. */
  function GetBaseUrl(origin: string, pathname: string): (r: string)
    ensures origin <= r && r[|origin|..] == pathname
  {
    origin + pathname
  }

  /** albumPublicLink: the base, the album route, the slug. */
  function AlbumPublicLink(base: string, slug: string): (r: string)
    ensures base <= r
    ensures r[|base|..] == AlbumRoute + slug
    ensures |r| == |base| + |AlbumRoute| + |slug|
  {
    base + AlbumRoute + slug
  }

  /** The clipboard text a page builds around a share link: a fixed opening
      line, the link, a fixed closing line. */
  function ShareText(intro: string, link: string, outro: string): (r: string)
    ensures |r| == |intro| + |link| + |outro|
    ensures Contains(r, link)
    ensures intro <= r && r[|intro|..|intro| + |link|] == link
  {
    ContainsMiddle(intro, link, outro);
    intro + link + outro
  }

  /** What the router reads back from a link under `base`: the text after
      the album route, or nothing when the link is not an album link. */
  function SlugOfLink(base: string, link: string): (r: Option<string>)
  {
    if base + AlbumRoute <= link then Some(link[|base| + |AlbumRoute|..]) else None
  }

  /** Reading the slug back from a link gives the slug the link was made of. */
  lemma LinkRoundTrip(base: string, slug: string)
    ensures SlugOfLink(base, AlbumPublicLink(base, slug)) == Some(slug)
  {
    var link := AlbumPublicLink(base, slug);
    assert link == (base + AlbumRoute) + slug;
    assert link[|base| + |AlbumRoute|..] == slug;
  }

  /** Conversely, every link from which a slug is read is that slug's link. */
  lemma LinkOfReadSlug(base: string, link: string, slug: string)
    requires SlugOfLink(base, link) == Some(slug)
    ensures link == AlbumPublicLink(base, slug)
  {
    assert link == link[..|base| + |AlbumRoute|] + link[|base| + |AlbumRoute|..];
  }

  /** For a fixed base, distinct slugs give distinct links. */
  lemma LinkInjective(base: string, s: string, t: string)
    requires AlbumPublicLink(base, s) == AlbumPublicLink(base, t)
    ensures s == t
  {
    LinkRoundTrip(base, s);
    LinkRoundTrip(base, t);
  }

  /** Changing only the slug keeps everything up to and including the album
      route: the base is never affected. */
  lemma LinksShareBase(base: string, s: string, t: string)
    ensures AlbumPublicLink(base, s)[..|base| + |AlbumRoute|]
         == AlbumPublicLink(base, t)[..|base| + |AlbumRoute|]
         == base + AlbumRoute
  {
    assert AlbumPublicLink(base, s) == (base + AlbumRoute) + s;
    assert AlbumPublicLink(base, t) == (base + AlbumRoute) + t;
  }
}
