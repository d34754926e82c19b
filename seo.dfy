/** The sitemap route list and absolute URLs of src/lib/seo.ts. */
module Seo {
  import Text
  import Lists

  /** The change frequencies a sitemap entry may announce. */
  datatype ChangeFrequency = Always | Hourly | Daily | Weekly | Monthly | Yearly | Never

  datatype SitemapRoute = SitemapRoute(path: string, changeFrequency: ChangeFrequency, priority: real)

  const SiteUrl := "https://www.lilygo.fr"

  const BlogBasePath := "/blog"

  /** The fixed pages, most important first. */
  const CoreRoutes := [
    SitemapRoute("/", Monthly, 1.0),
    SitemapRoute("/book", Monthly, 0.9),
    SitemapRoute("/reservation", Monthly, 0.8),
    SitemapRoute("/payment", Monthly, 0.7),
    SitemapRoute("/privacy", Yearly, 0.5),
    SitemapRoute("/mentions-legales", Yearly, 0.5),
    SitemapRoute("/suppression-compte", Yearly, 0.3)]

  const BlogIndexRoute := SitemapRoute(BlogBasePath, Weekly, 0.7)

  /** The routes that do not depend on the blog's content. */
  const FixedRoutes := CoreRoutes + [BlogIndexRoute]

  /** `blogSlugs.map(...)`: one weekly route of priority 0.6 per article,
      under the blog's path, in slug order. */
  function BlogRoutes(blogSlugs: seq<string>): (routes: seq<SitemapRoute>)
    ensures |routes| == |blogSlugs|
    ensures forall i :: 0 <= i < |blogSlugs| ==>
      && routes[i].path == "/blog/" + blogSlugs[i]
      && routes[i].changeFrequency == Weekly
      && routes[i].priority == 0.6
  {
    seq(|blogSlugs|, i requires 0 <= i < |blogSlugs| => SitemapRoute(BlogBasePath + "/" + blogSlugs[i], Weekly, 0.6))
  }

  /** `getSitemapRoutes(blogSlugs = [])`: the seven core routes, the blog
      index, then the articles' routes. */
  function GetSitemapRoutes(blogSlugs: seq<string> := []): (routes: seq<SitemapRoute>)
    ensures |routes| == 8 + |blogSlugs|
    ensures routes[..7] == CoreRoutes
    ensures routes[7] == BlogIndexRoute
    ensures routes[8..] == BlogRoutes(blogSlugs)
  {
    var routes := FixedRoutes + BlogRoutes(blogSlugs);
    assert routes[..7] == CoreRoutes;
    assert routes[8..] == BlogRoutes(blogSlugs);
    routes
  }

  /** With no articles the sitemap is the eight fixed routes. */
  lemma DefaultSitemapIsFixed()
    ensures GetSitemapRoutes() == FixedRoutes
    ensures |GetSitemapRoutes()| == 8
  {
    assert BlogRoutes([]) == [];
  }

  lemma FixedPrioritiesInRange()
    ensures forall i :: 0 <= i < |FixedRoutes| ==> 0.0 <= FixedRoutes[i].priority <= 1.0
  {
  }

  /** Every priority lies between 0 and 1. */
  lemma PrioritiesInRange(blogSlugs: seq<string>)
    ensures forall i :: 0 <= i < |GetSitemapRoutes(blogSlugs)| ==> 0.0 <= GetSitemapRoutes(blogSlugs)[i].priority <= 1.0
  {
    var routes := GetSitemapRoutes(blogSlugs);
    FixedPrioritiesInRange();
    forall i | 0 <= i < |routes|
      ensures 0.0 <= routes[i].priority <= 1.0
    {
      if i < 8 {
        assert routes[i] == FixedRoutes[i];
      } else {
        assert routes[i] == routes[8..][i - 8];
      }
    }
  }

  /** The paths of the routes, in order. */
  function Paths(routes: seq<SitemapRoute>): (paths: seq<string>)
    ensures |paths| == |routes|
    ensures forall i :: 0 <= i < |routes| ==> paths[i] == routes[i].path
  {
    seq(|routes|, i requires 0 <= i < |routes| => routes[i].path)
  }

  lemma PathsAppend(a: seq<SitemapRoute>, b: seq<SitemapRoute>)
    ensures Paths(a + b) == Paths(a) + Paths(b)
  {
  }

  /** The fixed paths, in sitemap order. */
  const FixedPaths := ["/", "/book", "/reservation", "/payment", "/privacy", "/mentions-legales", "/suppression-compte", "/blog"]

  lemma FixedRoutePaths()
    ensures Paths(FixedRoutes) == FixedPaths
  {
  }

  /** The sitemap's paths are the fixed ones, then the articles'. */
  lemma SitemapPaths(blogSlugs: seq<string>)
    ensures Paths(GetSitemapRoutes(blogSlugs)) == FixedPaths + Paths(BlogRoutes(blogSlugs))
  {
    PathsAppend(FixedRoutes, BlogRoutes(blogSlugs));
    FixedRoutePaths();
  }

  /** No fixed path starts with "/blog/", and the fixed paths are distinct. */
  lemma FixedPathsAreDistinct()
    ensures Lists.NoDuplicates(FixedPaths)
    ensures forall i :: 0 <= i < |FixedPaths| ==> !Text.StartsWith(FixedPaths[i], "/blog/")
  {
    forall i | 0 <= i < |FixedPaths|
      ensures !Text.StartsWith(FixedPaths[i], "/blog/")
    {
      var f := FixedPaths[i];
      if |f| >= 6 {
        assert f[1] != 'b';
      }
    }
  }

  /** Distinct slugs give distinct article paths, and back. */
  lemma ArticlePathsDistinct(blogSlugs: seq<string>)
    ensures Lists.NoDuplicates(Paths(BlogRoutes(blogSlugs))) <==> Lists.NoDuplicates(blogSlugs)
  {
    var paths := Paths(BlogRoutes(blogSlugs));
    if Lists.NoDuplicates(blogSlugs) {
      forall i, j | 0 <= i < j < |paths|
        ensures paths[i] != paths[j]
      {
        assert paths[i][6..] == blogSlugs[i];
        assert paths[j][6..] == blogSlugs[j];
      }
    }
  }

  /** Appending strings with a prefix to distinct strings without it keeps
      them distinct exactly when the appended ones are. */
  lemma PrefixSeparates(a: seq<string>, b: seq<string>, p: string)
    requires Lists.NoDuplicates(a)
    requires forall i :: 0 <= i < |a| ==> !Text.StartsWith(a[i], p)
    requires forall j :: 0 <= j < |b| ==> Text.StartsWith(b[j], p)
    ensures Lists.NoDuplicates(a + b) <==> Lists.NoDuplicates(b)
  {
    Lists.NoDuplicatesAppend(a, b);
  }

  /** The sitemap lists every path once exactly when the article slugs are
      distinct. */
  lemma SitemapPathsDistinct(blogSlugs: seq<string>)
    ensures Lists.NoDuplicates(Paths(GetSitemapRoutes(blogSlugs))) <==> Lists.NoDuplicates(blogSlugs)
  {
    var articles := Paths(BlogRoutes(blogSlugs));
    SitemapPaths(blogSlugs);
    FixedPathsAreDistinct();
    ArticlePathsPrefixed(blogSlugs);
    PrefixSeparates(FixedPaths, articles, "/blog/");
    ArticlePathsDistinct(blogSlugs);
  }

  /** Every article path lies under "/blog/". */
  lemma ArticlePathsPrefixed(blogSlugs: seq<string>)
    ensures forall j :: 0 <= j < |Paths(BlogRoutes(blogSlugs))| ==> Text.StartsWith(Paths(BlogRoutes(blogSlugs))[j], "/blog/")
  {
    var paths := Paths(BlogRoutes(blogSlugs));
    forall j | 0 <= j < |paths|
      ensures Text.StartsWith(paths[j], "/blog/")
    {
      assert paths[j] == "/blog/" + blogSlugs[j];
    }
  }

  /** `absoluteUrl(path)`: a path already starting with "http" is kept,
      any other is put after the site's address. */
  function AbsoluteUrl(path: string): (url: string)
    ensures Text.StartsWith(path, "http") <==> url == path
    ensures !Text.StartsWith(path, "http") ==> url == SiteUrl + path
    ensures Text.StartsWith(url, "http")
  {
    if Text.StartsWith(path, "http") then path
    else
      assert (SiteUrl + path)[..4] == "http";
      SiteUrl + path
  }

  /** Making a URL absolute twice changes nothing more. */
  lemma AbsoluteUrlIdempotent(path: string)
    ensures AbsoluteUrl(AbsoluteUrl(path)) == AbsoluteUrl(path)
  {
  }
}
