/**
 * The public blog index: the fetched posts newest first, or three
 * built-in posts when the fetch fails or finds none; each card links to
 * the post's page at `/blog/<slug>`.
 */
module BlogPage {
  import opened Backend
  import opened Supabase
  import Slug
  import Text
  import UriComponent

  const ContentPlaceholder: string := "Full blog post content..."

  function Post(id: string, title: string, slug: string, photo: string, excerpt: string, now: string): BlogPost
  {
    BlogPost(id, title, slug,
      "https://images.pexels.com/photos/" + photo + "/pexels-photo-" + photo + ".jpeg?auto=compress&cs=tinysrgb&w=800",
      excerpt, ContentPlaceholder, now, now, now)
  }

  const Title1: string := "5 Tips for Planning the Perfect Wedding Menu"
  const Title2: string := "Corporate Catering: Making Your Business Events Stand Out"
  const Title3: string := "The Art of Traditional South Indian Cuisine"
  const Excerpt1: string := "Planning a wedding menu can be overwhelming. Here are our top tips to create a memorable culinary experience for your special day."
  const Excerpt2: string := "Discover how professional catering can elevate your corporate events and leave a lasting impression on your clients and employees."
  const Excerpt3: string := "Explore the rich heritage and authentic flavors of South Indian cuisine that have been passed down through generations."

  /** `defaultPosts`; every timestamp is the page's load time `now`. */
  function DefaultPosts(now: string): (r: seq<BlogPost>)
    ensures |r| == 3
  {
    [ Post("1", Title1, "perfect-wedding-menu-tips", "1024359", Excerpt1, now),
      Post("2", Title2, "corporate-catering-guide", "1267320", Excerpt2, now),
      Post("3", Title3, "traditional-south-indian-cuisine", "1640772", Excerpt3, now) ]
  }

  /** The built-in posts have distinct ids and distinct slugs, so their keys and links never clash. */
  lemma DefaultPostsDistinct(now: string)
    ensures forall i, j :: 0 <= i < j < 3 ==> DefaultPosts(now)[i].id != DefaultPosts(now)[j].id
    ensures forall i, j :: 0 <= i < j < 3 ==> DefaultPosts(now)[i].slug != DefaultPosts(now)[j].slug
  {
    var d := DefaultPosts(now);
    assert d[0].slug[0] == 'p' && d[1].slug[0] == 'c' && d[2].slug[0] == 't';
  }

  /** `/blog/${post.slug}`. */
  const BlogPrefix: string := "/blog/"

  function PostLink(slug: string): string
  {
    BlogPrefix + slug
  }

  /** `to` up to its first '?' or '#': what follows is the link's query or fragment, not its path. */
  function PathPart(to: string): (r: string)
    ensures |r| <= |to| && r == to[..|r|]
    ensures '?' !in r && '#' !in r
    ensures '?' !in to && '#' !in to ==> r == to
  {
    if to == [] || to[0] == '?' || to[0] == '#' then []
    else [to[0]] + PathPart(to[1..])
  }

  /** A prefix without '?' or '#' is kept whole. */
  lemma {:induction false} PathPartAppend(a: string, b: string)
    requires '?' !in a && '#' !in a
    ensures PathPart(a + b) == a + PathPart(b)
  {
    if a != [] {
      var ab := a + b;
      assert a == [a[0]] + a[1..];
      assert ab[0] == a[0] && ab[1..] == a[1..] + b;
      assert a[0] in a;
      assert ab != [] && ab[0] != '?' && ab[0] != '#';
      assert PathPart(ab) == [ab[0]] + PathPart(ab[1..]);
      PathPartAppend(a[1..], b);
      assert [a[0]] + (a[1..] + PathPart(b)) == a + PathPart(b);
    } else {
      assert a + b == b;
    }
  }

  /**
   * The browser's dot-segment removal on the path's segments, left to
   * right: "." is dropped and ".." drops the segment before it; either one
   * as the last segment leaves the path ending in '/', an empty segment.
   */
  function ResolveDots(stack: seq<string>, segs: seq<string>): seq<string>
    decreases |segs|
  {
    if segs == [] then stack
    else ResolveDots(NextStack(stack, segs[0], |segs| == 1), segs[1..])
  }

  /** The stack after one segment; `last` says whether it ends the path. */
  function NextStack(stack: seq<string>, seg: string, last: bool): (r: seq<string>)
    ensures forall y :: y in r ==> y == "" || y in stack || y == seg
  {
    if seg == ".." then
      var popped := if stack == [] then [] else stack[..|stack| - 1];
      if last then popped + [""] else popped
    else if seg == "." then
      if last then stack + [""] else stack
    else stack + [seg]
  }

  /** Resolution only drops segments and adds empty ones: every segment it keeps was in its input. */
  lemma {:induction false} ResolvedFromInput(stack: seq<string>, segs: seq<string>, j: int)
    requires 0 <= j < |ResolveDots(stack, segs)|
    ensures ResolveDots(stack, segs)[j] == "" || ResolveDots(stack, segs)[j] in stack + segs
    decreases |segs|
  {
    if segs != [] {
      var next := NextStack(stack, segs[0], |segs| == 1);
      ResolvedFromInput(next, segs[1..], j);
      var e := ResolveDots(stack, segs)[j];
      if e != "" {
        assert e in next || e in segs[1..];
      }
    }
  }

  /** An ordinary segment is pushed as it is. */
  lemma ResolveStep(stack: seq<string>, seg: string, rest: seq<string>)
    requires seg != "." && seg != ".."
    ensures ResolveDots(stack, [seg] + rest) == ResolveDots(stack + [seg], rest)
  {
    assert ([seg] + rest)[0] == seg && ([seg] + rest)[1..] == rest;
  }

  /** Ordinary segments are kept; "." or ".." after an ordinary segment leaves no second segment. */
  lemma ResolveTwo(a: string, b: string)
    requires a != "." && a != ".."
    ensures b != "." && b != ".." ==> ResolveDots([], [a, b]) == [a, b]
    ensures ResolveDots([], [a, "."]) == [a, ""]
    ensures ResolveDots([], [a, ".."]) == [""]
  {
    assert [] + [a] == [a];
    assert [a, b] == [a] + [b] && [a, "."] == [a] + ["."] && [a, ".."] == [a] + [".."];
    ResolveStep([], a, [b]);
    ResolveStep([], a, ["."]);
    ResolveStep([], a, [".."]);
    if b != "." && b != ".." {
      ResolveStep([a], b, []);
      assert [b] + [] == [b];
    }
  }

  /** A trailing empty segment is kept after two ordinary ones. */
  lemma ResolveThree(a: string, b: string)
    requires a != "." && a != ".." && b != "." && b != ".."
    ensures ResolveDots([], [a, b, ""]) == [a, b, ""]
  {
    assert [a, b, ""] == [a] + ([b] + [""]);
    assert [] + [a] == [a] && [a] + [b] == [a, b] && [a, b] + [""] == [a, b, ""];
    ResolveStep([], a, [b] + [""]);
    ResolveStep([a], b, [""]);
    ResolveStep([a, b], "", []);
    assert [""] + [] == [""];
  }

  /**
   * The value `useParams` reports for a parameter: its `decodeURIComponent`
   * decoding, or the text as it is when that throws.
   */
  function ParamValue(raw: string): (r: string)
    ensures |r| <= |raw|
    ensures raw != "" ==> r != ""
    ensures r == raw <==> '%' !in raw || UriComponent.Decode(raw).None?
  {
    match UriComponent.Decode(raw)
    case None => raw
    case Some(d) =>
      UriComponent.DecodeLength(raw);
      if '%' !in raw then UriComponent.DecodePlain(raw); d else d
  }

  /** "blog" in any ASCII case. */
  predicate IsBlogSegment(seg: string)
  {
    Slug.ToLower(seg) == "blog"
  }

  lemma BlogSegments()
    ensures IsBlogSegment("blog") && IsBlogSegment("Blog")
  {
    assert Slug.ToLower("blog") == "blog";
    assert Slug.ToLower("Blog") == "blog";
  }

  /**
   * The route `/blog/:slug` on the resolved segments: "blog" in any ASCII
   * case, then one non-empty segment, then nothing but trailing slashes.
   */
  function MatchPostRoute(segs: seq<string>): (r: Option<string>)
    ensures r.Some? ==> |segs| >= 2 && segs[1] != "" && r.value == ParamValue(segs[1])
  {
    if |segs| >= 2 && IsBlogSegment(segs[0]) && segs[1] != ""
      && forall k :: 2 <= k < |segs| ==> segs[k] == ""
    then Some(ParamValue(segs[1]))
    else None
  }

  /**
   * The slug the post page receives when a link to `to` is followed, or
   * `None` when the post route does not match. Only root-relative links
   * (the ones the site renders) are modelled.
   */
  function RouteSlug(to: string): (r: Option<string>)
    ensures r.Some? ==> r.value != ""
  {
    RouteOfPath(PathPart(to))
  }

  /** The post route on a path: its segments after the leading '/', with dot segments resolved. */
  function RouteOfPath(path: string): (r: Option<string>)
    ensures r.Some? ==> r.value != ""
  {
    if |path| > 0 && path[0] == '/'
    then MatchPostRoute(ResolveDots([], Text.Split(path[1..], "/")))
    else None
  }

  /** A root-relative link whose path is `/<first>/<rest>`, `first` free of '?', '#' and '/'. */
  lemma RouteSegments(first: string, rest: string)
    requires '?' !in first && '#' !in first && '/' !in first
    ensures RouteSlug("/" + first + "/" + rest)
      == MatchPostRoute(ResolveDots([], [first] + Text.Split(PathPart(rest), "/")))
  {
    var pre := "/" + first + "/";
    assert '?' !in pre && '#' !in pre by {
      assert forall ch :: ch in pre ==> ch == '/' || ch in first;
    }
    PathPartAppend(pre, rest);
    var path := pre + PathPart(rest);
    assert path[1..] == first + ['/'] + PathPart(rest);
    Text.SplitAfterPiece(first, PathPart(rest), '/');
    assert RouteOfPath(path) == MatchPostRoute(ResolveDots([], [first] + Text.Split(PathPart(rest), "/")));
  }

  /** A post's link gives the route the segments "blog", then the slug's path pieces. */
  lemma PostLinkSegments(slug: string)
    ensures RouteSlug(PostLink(slug))
      == MatchPostRoute(ResolveDots([], ["blog"] + Text.Split(PathPart(slug), "/")))
  {
    assert PostLink(slug) == "/" + "blog" + "/" + slug;
    RouteSegments("blog", slug);
  }

  /** A segment without '/' splits into itself. */
  lemma OnePiece(seg: string)
    requires '/' !in seg
    ensures Text.Split(seg, "/") == [seg]
  {
    Text.ContainsChar(seg, '/');
    Text.SplitWithoutSeparator(seg, "/");
  }

  /**
   * A slug the post route hands back unchanged: one non-empty path
   * segment, no query or fragment mark, not a dot segment, and either free
   * of '%' or not decodable.
   */
  predicate RoutableSlug(slug: string)
  {
    && slug != "" && '/' !in slug && '?' !in slug && '#' !in slug
    && slug != "." && slug != ".."
    && ('%' !in slug || UriComponent.Decode(slug).None?)
  }

  /** After "blog", a routable slug is matched as itself. */
  lemma RoutableSegment(first: string, slug: string)
    requires IsBlogSegment(first) && first != "." && first != ".."
    requires RoutableSlug(slug)
    ensures MatchPostRoute(ResolveDots([], [first] + Text.Split(slug, "/"))) == Some(slug)
  {
    OnePiece(slug);
    assert [first] + [slug] == [first, slug];
    ResolveTwo(first, slug);
    assert ParamValue(slug) == slug;
  }

  /** A routable slug comes back unchanged. */
  lemma RoutableRoutesBack(slug: string)
    requires RoutableSlug(slug)
    ensures RouteSlug(PostLink(slug)) == Some(slug)
  {
    PostLinkSegments(slug);
    BlogSegments();
    RoutableSegment("blog", slug);
  }

  /** The route's value is decoded from one piece of the path, so it is never longer than the slug's path part. */
  lemma RoutedFromPiece(slug: string)
    requires RouteSlug(PostLink(slug)).Some?
    ensures var v := RouteSlug(PostLink(slug)).value;
      v == "blog" || (|v| <= |PathPart(slug)| && (|v| == |PathPart(slug)| ==> '/' !in PathPart(slug)))
  {
    PostLinkSegments(slug);
    var c := PathPart(slug);
    var pieces := Text.Split(c, "/");
    var r := ResolveDots([], ["blog"] + pieces);
    ResolvedFromInput([], ["blog"] + pieces, 1);
    var x := r[1];
    if x == "blog" {
      UriComponent.DecodePlain("blog");
    } else {
      assert x in pieces;
      var k :| 0 <= k < |pieces| && pieces[k] == x;
      Text.SplitPieceLength(c, "/", k);
      Text.ContainsChar(c, '/');
    }
  }

  /** A slug that comes back unchanged is one segment with no query or fragment mark. */
  lemma RoutesBackOneSegment(slug: string)
    requires RouteSlug(PostLink(slug)) == Some(slug)
    ensures '/' !in slug && '?' !in slug && '#' !in slug
  {
    RoutedFromPiece(slug);
    var c := PathPart(slug);
    if slug != "blog" {
      assert |c| == |slug|;
      assert c == slug;
    }
  }

  /** A one-segment slug that comes back unchanged is neither a dot segment nor changed by decoding. */
  lemma SegmentRoutesBackRoutable(slug: string)
    requires '/' !in slug && '?' !in slug && '#' !in slug
    requires RouteSlug(PostLink(slug)) == Some(slug)
    ensures RoutableSlug(slug)
  {
    DotSlugsUnrouted();
    PostLinkSegments(slug);
    OnePiece(slug);
    assert ["blog"] + [slug] == ["blog", slug];
    ResolveTwo("blog", slug);
    assert ParamValue(slug) == slug;
  }

  /** The dot segments resolve away and leave nothing for the post route. */
  lemma DotSlugsUnrouted()
    ensures RouteSlug(PostLink(".")) == None
    ensures RouteSlug(PostLink("..")) == None
  {
    PostLinkSegments(".");
    PostLinkSegments("..");
    OnePiece(".");
    OnePiece("..");
    ResolveTwo("blog", ".");
  }

  /** A post's link brings the post page exactly its own slug when, and only when, the slug is routable. */
  lemma LinkRoutesBack(slug: string)
    ensures RouteSlug(PostLink(slug)) == Some(slug) <==> RoutableSlug(slug)
  {
    if RoutableSlug(slug) {
      RoutableRoutesBack(slug);
    }
    if RouteSlug(PostLink(slug)) == Some(slug) {
      RoutesBackOneSegment(slug);
      SegmentRoutesBackRoutable(slug);
    }
  }

  /**
   * What the router does with a typed slug holding a '?' or '#': only the
   * part before it reaches the post page, so "menu?v=2" opens "menu".
   */
  lemma QueryNotPartOfSlug(slug: string, mark: char, rest: string)
    requires RoutableSlug(slug) && (mark == '?' || mark == '#')
    ensures RouteSlug(PostLink(slug + [mark] + rest)) == Some(slug)
  {
    PostLinkSegments(slug + [mark] + rest);
    PathPartAtMark(slug, mark, rest);
    BlogSegments();
    RoutableSegment("blog", slug);
  }

  /** The path part of a text ends at its first query or fragment mark. */
  lemma PathPartAtMark(path: string, mark: char, rest: string)
    requires '?' !in path && '#' !in path && (mark == '?' || mark == '#')
    ensures PathPart(path + [mark] + rest) == path
  {
    assert path + [mark] + rest == path + ([mark] + rest);
    PathPartAppend(path, [mark] + rest);
    assert PathPart([mark] + rest) == [];
    assert path + [] == path;
  }

  /** The route allows a trailing slash. */
  lemma TrailingSlashIgnored(slug: string)
    requires RoutableSlug(slug)
    ensures RouteSlug(PostLink(slug + "/")) == Some(slug)
  {
    PostLinkSegments(slug + "/");
    assert PathPart(slug + "/") == slug + "/";
    assert slug + "/" == slug + ['/'] + "";
    Text.SplitAfterPiece(slug, "", '/');
    assert ["blog"] + Text.Split(slug + "/", "/") == ["blog", slug, ""];
    ResolveThree("blog", slug);
    BlogSegments();
    assert ParamValue(slug) == slug;
  }

  /** The route matches "blog" in any ASCII case. */
  lemma RouteIgnoresCase(slug: string)
    requires RoutableSlug(slug)
    ensures RouteSlug("/Blog/" + slug) == Some(slug)
  {
    assert "/Blog/" + slug == "/" + "Blog" + "/" + slug;
    RouteSegments("Blog", slug);
    BlogSegments();
    RoutableSegment("Blog", slug);
  }

  /** A derived slug, when non-empty, always routes back. */
  lemma DerivedSlugRoutesBack(title: string)
    requires Slug.GenerateSlug(title) != ""
    ensures RouteSlug(PostLink(Slug.GenerateSlug(title))) == Some(Slug.GenerateSlug(title))
  {
    var s := Slug.GenerateSlug(title);
    Slug.GenerateSlugWellFormed(title);
    forall ch | ch in s
      ensures Slug.IsSlugChar(ch)
    {
      var i :| 0 <= i < |s| && s[i] == ch;
    }
    assert s != "." && s != ".." by {
      assert Slug.IsSlugChar(s[0]);
    }
    LinkRoutesBack(s);
  }

  /** What one card shows. */
  datatype Card = Card(title: string, excerpt: string, link: string)

  function CardOf(p: BlogPost): Card
  {
    Card(p.title, p.excerpt, PostLink(p.slug))
  }

  /** `posts.map(...)`: one card per post, in the fetched order, linking to `/blog/<slug>`. */
  function Cards(posts: seq<BlogPost>): (r: seq<Card>)
    ensures |r| == |posts|
    ensures forall k :: 0 <= k < |r| ==>
      r[k].title == posts[k].title && r[k].excerpt == posts[k].excerpt && r[k].link == PostLink(posts[k].slug)
  {
    seq(|posts|, k requires 0 <= k < |posts| => CardOf(posts[k]))
  }

  /** Following a card's link opens the page of that card's post exactly when the post's slug is routable. */
  lemma CardOpensItsPost(posts: seq<BlogPost>, k: int)
    requires 0 <= k < |posts|
    ensures RouteSlug(Cards(posts)[k].link) == Some(posts[k].slug) <==> RoutableSlug(posts[k].slug)
  {
    LinkRoutesBack(posts[k].slug);
  }

  class Page {
    var posts: seq<BlogPost>

    constructor ()
      ensures posts == []
    {
      posts := [];
    }

    /** `fetchBlogPosts`: the fetched posts when there are any, the built-in ones otherwise. */
    method Fetch(result: Outcome<seq<BlogPost>>, now: string)
      modifies this`posts
      ensures posts == WithFallback(result, DefaultPosts(now))
      ensures |posts| > 0
    {
      if result.Ok? && |result.rows| > 0 {
        posts := result.rows;
      } else {
        posts := DefaultPosts(now);
      }
    }

    function View(): seq<Card>
      reads this
    {
      Cards(posts)
    }
  }

  /** The page mounting, with the initial fetch applied. */
  method Mount(fetched: Outcome<seq<BlogPost>>, now: string) returns (p: Page)
    ensures fresh(p) && p.posts == WithFallback(fetched, DefaultPosts(now))
  {
    p := new Page();
    p.Fetch(fetched, now);
  }
}
