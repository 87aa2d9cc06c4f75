/**
 * The blog-post manager: the content editor over `blog_posts`, whose
 * submit fills an empty slug from the title before writing.
 */
module BlogManager {
  import opened Backend
  import opened Supabase
  import Slug
  import opened ContentEditor

  /** The five fields the form edits. */
  datatype PostForm = PostForm(
    title: string,
    slug: string,
    thumbnail_url: string,
    excerpt: string,
    content: string)

  /** The initial form, and what `resetForm` restores. */
  const EmptyForm: PostForm := PostForm("", "", "", "", "")

  function PostId(p: BlogPost): string
  {
    p.id
  }

  /** `handleEdit`'s copy of a post into the form. */
  function FormOf(p: BlogPost): PostForm
  {
    PostForm(p.title, p.slug, p.thumbnail_url, p.excerpt, p.content)
  }

  /**
   * `{ ...formData, slug }` with `slug = formData.slug || generateSlug(formData.title)`:
   * the submitted fields are the form's, except that an empty slug is
   * replaced by a well-formed one derived from the title.
   */
  function Payload(f: PostForm): (r: PostForm)
    ensures r.(slug := f.slug) == f
    ensures f.slug != "" ==> r.slug == f.slug
    ensures f.slug == "" ==> r.slug == Slug.GenerateSlug(f.title) && Slug.WellFormed(r.slug)
  {
    f.(slug := Slug.StoredSlug(f.slug, f.title))
  }

  /** The stored post after an update with the submitted fields. */
  function Patched(p: BlogPost, f: PostForm): (r: BlogPost)
    ensures r.id == p.id && r.created_at == p.created_at && r.published_at == p.published_at
    ensures FormOf(r) == f
  {
    p.(title := f.title, slug := f.slug, thumbnail_url := f.thumbnail_url,
       excerpt := f.excerpt, content := f.content)
  }

  /**
   * Opening a post for editing and saving it unchanged writes the post back
   * as it was, unless its slug was empty and the title has a letter or
   * digit, in which case the post gains the derived slug.
   */
  lemma UnchangedEditWritesBack(p: BlogPost)
    ensures Patched(p, Payload(FormOf(p))) == p <==>
      p.slug != "" || Slug.Alnums(Slug.ToLower(p.title)) == ""
    ensures p.slug == "" ==> Patched(p, Payload(FormOf(p))).slug == Slug.GenerateSlug(p.title)
  {
    Slug.EmptySlugIffNoAlnum(p.title);
  }

  /** The component mounting: a fresh editor, with the initial list fetch applied. */
  method Mount(fetched: Outcome<seq<BlogPost>>) returns (e: Editor<BlogPost, PostForm>)
    ensures fresh(e) && e.Valid() && e.Mode() == Closed
    ensures e.rows == AfterFetch([], fetched) && e.formData == EmptyForm
    ensures e.emptyForm == EmptyForm && e.idOf == PostId
    ensures e.formOf == FormOf && e.payloadOf == Payload
  {
    e := new Editor(EmptyForm, PostId, FormOf, Payload);
    e.Fetch(fetched);
  }
}
