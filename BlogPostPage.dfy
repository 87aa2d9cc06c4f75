/**
 * The page of one blog post at `/blog/:slug`: a spinner until the lookup
 * by slug has answered, then the post or "Post Not Found". The content
 * is shown as paragraphs cut at each blank line.
 */
module BlogPostPage {
  import opened Backend
  import opened Supabase
  import Text

  const ParagraphBreak: string := "\n\n"

  /** What the page renders. */
  datatype View = Spinner | NotFound | Article(title: string, paragraphs: seq<string>)

  /** `post.content.split('\n\n')`. */
  function Paragraphs(content: string): seq<string>
  {
    Text.Split(content, ParagraphBreak)
  }

  /**
   * The paragraphs put back together with blank lines give the content
   * back, no paragraph holds a blank line, and content without a blank
   * line is one paragraph.
   */
  lemma ParagraphsPartitionContent(content: string)
    ensures Text.Join(Paragraphs(content), ParagraphBreak) == content
    ensures forall k :: 0 <= k < |Paragraphs(content)| ==> !Text.Contains(Paragraphs(content)[k], ParagraphBreak)
    ensures !Text.Contains(content, ParagraphBreak) <==> Paragraphs(content) == [content]
  {
    Text.JoinSplit(content, ParagraphBreak);
    Text.SplitPiecesFree(content, ParagraphBreak);
    Text.SplitWithoutSeparator(content, ParagraphBreak);
  }

  /** The render branches: loading first, then a missing post, then the article. */
  function ViewOf(loading: bool, post: Option<BlogPost>): (v: View)
    ensures v.Spinner? <==> loading
    ensures v.NotFound? <==> !loading && post.None?
    ensures v.Article? ==> v.title == post.value.title && v.paragraphs == Paragraphs(post.value.content)
  {
    if loading then Spinner
    else if post.None? then NotFound
    else Article(post.value.title, Paragraphs(post.value.content))
  }

  class Page {
    var slug: Option<string>
    var post: Option<BlogPost>
    var loading: bool

    /** The page appearing: nothing loaded, spinner on. */
    constructor (slug: Option<string>)
      ensures this.slug == slug && post == None && loading
    {
      this.slug := slug;
      post := None;
      loading := true;
    }

    function View(): View
      reads this
    {
      ViewOf(loading, post)
    }

    /**
     * The effect on `[slug]`: with a truthy slug it looks the post up,
     * `result` being the backend's answer (`Ok(None)` when no row has that
     * slug); the returned slug is the one looked up, if any. A post is
     * taken only from a successful answer with a row, and the spinner goes
     * off whatever the answer. With no slug nothing happens.
     */
    method Effect(result: Outcome<Option<BlogPost>>) returns (looked: Option<string>)
      modifies this`post, this`loading
      ensures looked == if Truthy(slug) then slug else None
      ensures Truthy(slug) ==> !loading
      ensures !Truthy(slug) ==> loading == old(loading)
      ensures post == if Truthy(slug) && result.Ok? && result.rows.Some? then result.rows else old(post)
    {
      looked := None;
      if Truthy(slug) {
        looked := slug;
        if result.Ok? && result.rows.Some? {
          post := result.rows;
        }
        loading := false;
      }
    }

    /** Following a link to another post keeps the page, and with it the loaded state. */
    method Navigate(slug: Option<string>)
      modifies this`slug
      ensures this.slug == slug
    {
      this.slug := slug;
    }
  }

  /**
   * A first visit: a truthy slug ends on the post if the lookup found one
   * and on "Post Not Found" otherwise; without a slug the spinner stays.
   */
  method Visit(slug: Option<string>, result: Outcome<Option<BlogPost>>) returns (p: Page)
    ensures fresh(p) && p.slug == slug
    ensures !Truthy(slug) ==> p.View() == Spinner
    ensures Truthy(slug) && result.Ok? && result.rows.Some? ==>
      p.View() == Article(result.rows.value.title, Paragraphs(result.rows.value.content))
    ensures Truthy(slug) && (result.Err? || result.rows.None?) ==> p.View() == NotFound
  {
    p := new Page(slug);
    var _ := p.Effect(result);
  }
}
