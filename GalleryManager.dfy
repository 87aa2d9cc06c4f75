/**
 * The gallery-image manager: the content editor over `gallery_images`,
 * with a category select offering the five gallery categories.
 */
module GalleryManager {
  import opened Backend
  import opened Supabase
  import opened ContentEditor

  /** The four fields the form edits. */
  datatype ImageForm = ImageForm(
    title: string,
    alt_text: string,
    image_url: string,
    category: GalleryCategory)

  /** The initial form, and what `resetForm` restores: empty strings, category "Wedding". */
  const EmptyForm: ImageForm := ImageForm("", "", "", Wedding)

  function ImageId(img: GalleryImage): string
  {
    img.id
  }

  /** `handleEdit`'s copy of an image into the form. */
  function FormOf(img: GalleryImage): ImageForm
  {
    ImageForm(img.title, img.alt_text, img.image_url, img.category)
  }

  /** `update(formData)` / `insert([formData])`: the form is written as it is. */
  function Payload(f: ImageForm): ImageForm
  {
    f
  }

  /** The stored image after an update with the submitted fields. */
  function Patched(img: GalleryImage, f: ImageForm): (r: GalleryImage)
    ensures r.id == img.id && r.created_at == img.created_at
    ensures FormOf(r) == f
  {
    img.(title := f.title, alt_text := f.alt_text, image_url := f.image_url, category := f.category)
  }

  /** Saving an image unchanged writes it back exactly as it was. */
  lemma UnchangedEditWritesBack(img: GalleryImage)
    ensures Patched(img, Payload(FormOf(img))) == img
  {
  }

  /** The `<option>` values of the category select, in order. */
  function CategoryOptions(): (r: seq<string>)
    ensures |r| == |GalleryCategories|
  {
    seq(|GalleryCategories|, i requires 0 <= i < |GalleryCategories| =>
      GalleryCategoryName(GalleryCategories[i]))
  }

  /** The select offers each of the five categories, once each, under its stored name. */
  lemma CategoryOptionsExact(c: GalleryCategory)
    ensures GalleryCategoryName(c) in CategoryOptions()
    ensures forall i :: 0 <= i < |CategoryOptions()| ==>
      ParseGalleryCategory(CategoryOptions()[i]) == Some(GalleryCategories[i])
    ensures forall i, j :: 0 <= i < j < |CategoryOptions()| ==> CategoryOptions()[i] != CategoryOptions()[j]
  {
    GalleryCategoriesComplete(c);
    var k :| 0 <= k < |GalleryCategories| && GalleryCategories[k] == c;
    assert CategoryOptions()[k] == GalleryCategoryName(c);
    forall i | 0 <= i < |CategoryOptions()|
      ensures ParseGalleryCategory(CategoryOptions()[i]) == Some(GalleryCategories[i])
    {
      GalleryCategoryRoundTrip(GalleryCategories[i]);
    }
    forall i, j | 0 <= i < j < |CategoryOptions()|
      ensures CategoryOptions()[i] != CategoryOptions()[j]
    {
      GalleryCategoryNameInjective(GalleryCategories[i], GalleryCategories[j]);
    }
  }

  /** Choosing an option: the form takes the category named by it and nothing else changes. */
  function ChooseCategory(f: ImageForm, option: string): (r: ImageForm)
    requires option in CategoryOptions()
    ensures GalleryCategoryName(r.category) == option
    ensures r.(category := f.category) == f
  {
    var i :| 0 <= i < |CategoryOptions()| && CategoryOptions()[i] == option;
    f.(category := GalleryCategories[i])
  }

  /** The component mounting: a fresh editor, with the initial list fetch applied. */
  method Mount(fetched: Outcome<seq<GalleryImage>>) returns (e: Editor<GalleryImage, ImageForm>)
    ensures fresh(e) && e.Valid() && e.Mode() == Closed
    ensures e.rows == AfterFetch([], fetched) && e.formData == EmptyForm
    ensures e.emptyForm == EmptyForm && e.idOf == ImageId
    ensures e.formOf == FormOf && e.payloadOf == Payload
  {
    e := new Editor(EmptyForm, ImageId, FormOf, Payload);
    e.Fetch(fetched);
  }
}
