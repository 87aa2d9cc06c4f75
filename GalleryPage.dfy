/**
 * The public gallery page: the fetched images, or ten built-in ones when
 * the fetch fails or finds none, filtered by the selected category tab,
 * with a lightbox for one image.
 */
module GalleryPage {
  import opened Backend
  import opened Supabase

  /** The filter tabs: "All", then the five categories in their fixed order. */
  function Categories(): (r: seq<string>)
    ensures |r| == 1 + |GalleryCategories|
    ensures r[0] == "All"
    ensures forall k :: 0 <= k < |GalleryCategories| ==> r[k + 1] == GalleryCategoryName(GalleryCategories[k])
  {
    ["All"] + seq(|GalleryCategories|, k requires 0 <= k < |GalleryCategories| =>
      GalleryCategoryName(GalleryCategories[k]))
  }

  function Image(id: string, title: string, alt: string, photo: string, c: GalleryCategory, now: string): GalleryImage
  {
    GalleryImage(id, title, alt,
      "https://images.pexels.com/photos/" + photo + "/pexels-photo-" + photo + ".jpeg?auto=compress&cs=tinysrgb&w=800",
      c, now)
  }

  /** The first five built-in images, one per category in the fixed order. */
  function FirstDefaults(now: string): seq<GalleryImage>
  {
    [ Image("1", "Wedding Event", "Wedding catering setup", "1024359", Wedding, now),
      Image("2", "Corporate Lunch", "Corporate event catering", "1267320", Corporate, now),
      Image("3", "Birthday Party", "Private party catering", "1395964", Private, now),
      Image("4", "Outdoor Event", "Outdoor catering setup", "2291367", Outdoor, now),
      Image("5", "Luxury Dining", "Luxury event catering", "1126359", Luxury, now) ]
  }

  /** The last five built-in images, again one per category in the fixed order. */
  function LastDefaults(now: string): seq<GalleryImage>
  {
    [ Image("6", "Wedding Reception", "Wedding reception catering", "1616113", Wedding, now),
      Image("7", "Business Meeting", "Corporate meeting catering", "3184192", Corporate, now),
      Image("8", "Anniversary", "Anniversary celebration", "2291367", Private, now),
      Image("9", "Garden Party", "Outdoor garden party", "1395967", Outdoor, now),
      Image("10", "Gala Dinner", "Luxury gala dinner", "2788792", Luxury, now) ]
  }

  /** `defaultImages`; every one is stamped with the page's load time `now`. */
  function DefaultImages(now: string): (r: seq<GalleryImage>)
    ensures |r| == 10 && r[0].title == "Wedding Event"
  {
    FirstDefaults(now) + LastDefaults(now)
  }

  /** `images.filter(img => img.category === name)`. */
  function ByCategory(images: seq<GalleryImage>, name: string): (r: seq<GalleryImage>)
    ensures |r| <= |images|
    ensures forall x :: x in r <==> x in images && GalleryCategoryName(x.category) == name
  {
    if images == [] then []
    else
      (if GalleryCategoryName(images[0].category) == name then [images[0]] else [])
      + ByCategory(images[1..], name)
  }

  /** Filtering a concatenation filters each part and keeps them in order. */
  lemma {:induction false} ByCategoryAppend(a: seq<GalleryImage>, b: seq<GalleryImage>, name: string)
    ensures ByCategory(a + b, name) == ByCategory(a, name) + ByCategory(b, name)
  {
    if a == [] {
      assert a + b == b;
    } else {
      assert (a + b)[1..] == a[1..] + b;
      ByCategoryAppend(a[1..], b, name);
    }
  }

  /** `filteredImages`: everything under "All", else the images of exactly that category. */
  function Filtered(images: seq<GalleryImage>, selected: string): (r: seq<GalleryImage>)
    ensures selected == "All" ==> r == images
    ensures |r| <= |images|
    ensures forall x :: x in r <==>
      x in images && (selected == "All" || GalleryCategoryName(x.category) == selected)
  {
    if selected == "All" then images else ByCategory(images, selected)
  }

  /** With no image of the category, the filter is empty. */
  lemma ByCategoryNone(images: seq<GalleryImage>, name: string)
    requires forall k :: 0 <= k < |images| ==> GalleryCategoryName(images[k].category) != name
    ensures ByCategory(images, name) == []
  {
  }

  /** With exactly one image of the category, the filter yields that image. */
  lemma {:induction false} ByCategoryOne(images: seq<GalleryImage>, i: int, name: string)
    requires 0 <= i < |images| && GalleryCategoryName(images[i].category) == name
    requires forall k :: 0 <= k < |images| && k != i ==> GalleryCategoryName(images[k].category) != name
    ensures ByCategory(images, name) == [images[i]]
  {
    if i == 0 {
      ByCategoryNone(images[1..], name);
    } else {
      ByCategoryOne(images[1..], i - 1, name);
    }
  }

  /** A list holding one image per category, in the fixed order, yields one image per category tab. */
  lemma OnePerCategory(s: seq<GalleryImage>, c: GalleryCategory)
    requires |s| == |GalleryCategories|
    requires forall k :: 0 <= k < |s| ==> s[k].category == GalleryCategories[k]
    ensures |ByCategory(s, GalleryCategoryName(c))| == 1
  {
    var name := GalleryCategoryName(c);
    GalleryCategoriesComplete(c);
    var i :| 0 <= i < |GalleryCategories| && GalleryCategories[i] == c;
    forall k | 0 <= k < |s|
      ensures GalleryCategoryName(s[k].category) == name <==> k == i
    {
      GalleryCategoryNameInjective(s[k].category, c);
    }
    ByCategoryOne(s, i, name);
  }

  lemma DefaultsInCategoryOrder(now: string)
    ensures forall k :: 0 <= k < |FirstDefaults(now)| ==> FirstDefaults(now)[k].category == GalleryCategories[k]
    ensures forall k :: 0 <= k < |LastDefaults(now)| ==> LastDefaults(now)[k].category == GalleryCategories[k]
  {
  }

  lemma CategoryNameNotAll(c: GalleryCategory)
    ensures GalleryCategoryName(c) != "All"
  {
    assert GalleryCategoryName(c)[0] != 'A';
  }

  /** Each of the five category tabs shows exactly two of the built-in images. */
  lemma DefaultsTwoPerCategory(now: string, c: GalleryCategory)
    ensures |Filtered(DefaultImages(now), GalleryCategoryName(c))| == 2
  {
    var name := GalleryCategoryName(c);
    CategoryNameNotAll(c);
    DefaultsInCategoryOrder(now);
    ByCategoryAppend(FirstDefaults(now), LastDefaults(now), name);
    OnePerCategory(FirstDefaults(now), c);
    OnePerCategory(LastDefaults(now), c);
  }

  class Page {
    var images: seq<GalleryImage>
    var selectedCategory: string
    var lightboxImage: Option<GalleryImage>

    /** The selection is always one of the tabs. */
    ghost predicate Valid()
      reads this
    {
      selectedCategory in Categories()
    }

    constructor ()
      ensures images == [] && selectedCategory == "All" && lightboxImage == None && Valid()
    {
      images := [];
      selectedCategory := "All";
      lightboxImage := None;
    }

    function Shown(): seq<GalleryImage>
      reads this
    {
      Filtered(images, selectedCategory)
    }

    /**
     * `fetchGalleryImages`: the fetched images when there are any, the
     * built-in ones on an error or an empty answer.
     */
    method Fetch(result: Outcome<seq<GalleryImage>>, now: string)
      modifies this`images
      ensures images == WithFallback(result, DefaultImages(now))
      ensures |images| > 0
    {
      if result.Ok? && |result.rows| > 0 {
        images := result.rows;
      } else {
        images := DefaultImages(now);
      }
    }

    /** A tab click. */
    method Select(category: string)
      requires category in Categories()
      modifies this`selectedCategory
      ensures selectedCategory == category && Valid()
    {
      selectedCategory := category;
    }

    /** Clicking a shown image opens it in the lightbox. */
    method OpenLightbox(image: GalleryImage)
      requires image in Shown()
      modifies this`lightboxImage
      ensures lightboxImage == Some(image)
    {
      lightboxImage := Some(image);
    }

    /** The backdrop and the close button both close the lightbox. */
    method CloseLightbox()
      modifies this`lightboxImage
      ensures lightboxImage == None
    {
      lightboxImage := None;
    }
  }

  /** The page mounting: tab "All", no lightbox, with the initial fetch applied. */
  method Mount(fetched: Outcome<seq<GalleryImage>>, now: string) returns (p: Page)
    ensures fresh(p) && p.Valid() && p.lightboxImage == None
    ensures p.images == WithFallback(fetched, DefaultImages(now)) && p.Shown() == p.images
  {
    p := new Page();
    p.Fetch(fetched, now);
  }
}
