/**
 * The five record types the site reads and writes, their closed category
 * enumerations, and the startup guard on the two backend settings.
 * Timestamps are kept as the backend's ISO strings; they are never computed on.
 */
module Supabase {
  import opened Backend

  /** `GalleryImage['category']`: exactly five values. */
  datatype GalleryCategory = Wedding | Corporate | Private | Outdoor | Luxury

  /** `MenuItem['category']`: exactly three values. */
  datatype MenuCategory = Vegetarian | NonVegetarian | Desserts

  datatype GalleryImage = GalleryImage(
    id: string,
    title: string,
    alt_text: string,
    image_url: string,
    category: GalleryCategory,
    created_at: string)

  /**
   * A testimonial row. The declared interface has no rating or photo, but
   * the admin manager reads and writes both, so the row carries them;
   * `video_url` is the only optional field.
   */
  datatype Testimonial = Testimonial(
    id: string,
    reviewer_name: string,
    content: string,
    rating: int,
    photo_url: string,
    video_url: Option<string>,
    created_at: string)

  datatype BlogPost = BlogPost(
    id: string,
    title: string,
    slug: string,
    thumbnail_url: string,
    excerpt: string,
    content: string,
    published_at: string,
    created_at: string,
    updated_at: string)

  datatype ContactInquiry = ContactInquiry(
    id: string,
    name: string,
    email: string,
    phone: string,
    message: string,
    via_whatsapp: bool,
    created_at: string)

  datatype MenuItem = MenuItem(
    id: string,
    category: MenuCategory,
    name: string,
    description: string,
    image_url: string,
    created_at: string)

  /** The string the backend stores for a gallery category. */
  function GalleryCategoryName(c: GalleryCategory): string
  {
    match c
    case Wedding => "Wedding"
    case Corporate => "Corporate"
    case Private => "Private"
    case Outdoor => "Outdoor"
    case Luxury => "Luxury"
  }

  /** The string the backend stores for a menu category. */
  function MenuCategoryName(c: MenuCategory): string
  {
    match c
    case Vegetarian => "Vegetarian"
    case NonVegetarian => "Non-Vegetarian"
    case Desserts => "Desserts"
  }

  /** Reads a stored category string back; anything else is not a category. */
  function ParseGalleryCategory(s: string): (r: Option<GalleryCategory>)
    ensures r.Some? ==> GalleryCategoryName(r.value) == s
  {
    if s == "Wedding" then Some(Wedding)
    else if s == "Corporate" then Some(Corporate)
    else if s == "Private" then Some(Private)
    else if s == "Outdoor" then Some(Outdoor)
    else if s == "Luxury" then Some(Luxury)
    else None
  }

  function ParseMenuCategory(s: string): (r: Option<MenuCategory>)
    ensures r.Some? ==> MenuCategoryName(r.value) == s
  {
    if s == "Vegetarian" then Some(Vegetarian)
    else if s == "Non-Vegetarian" then Some(NonVegetarian)
    else if s == "Desserts" then Some(Desserts)
    else None
  }

  lemma GalleryCategoryRoundTrip(c: GalleryCategory)
    ensures ParseGalleryCategory(GalleryCategoryName(c)) == Some(c)
  {
    match c
    case Wedding =>
    case Corporate => assert GalleryCategoryName(c)[0] != 'W';
    case Private => assert GalleryCategoryName(c)[0] !in "WC";
    case Outdoor => assert GalleryCategoryName(c)[0] !in "WCP";
    case Luxury => assert GalleryCategoryName(c)[0] !in "WCPO";
  }

  lemma MenuCategoryRoundTrip(c: MenuCategory)
    ensures ParseMenuCategory(MenuCategoryName(c)) == Some(c)
  {
    match c
    case Vegetarian =>
    case NonVegetarian => assert MenuCategoryName(c)[0] != 'V';
    case Desserts => assert MenuCategoryName(c)[0] !in "VN";
  }

  /** Distinct categories are stored as distinct strings. */
  lemma GalleryCategoryNameInjective(c: GalleryCategory, d: GalleryCategory)
    ensures GalleryCategoryName(c) == GalleryCategoryName(d) <==> c == d
  {
    if GalleryCategoryName(c) == GalleryCategoryName(d) {
      GalleryCategoryRoundTrip(c);
      GalleryCategoryRoundTrip(d);
    }
  }

  lemma MenuCategoryNameInjective(c: MenuCategory, d: MenuCategory)
    ensures MenuCategoryName(c) == MenuCategoryName(d) <==> c == d
  {
    if MenuCategoryName(c) == MenuCategoryName(d) {
      MenuCategoryRoundTrip(c);
      MenuCategoryRoundTrip(d);
    }
  }

  /** The category values in the order both gallery views list them. */
  const GalleryCategories: seq<GalleryCategory> := [Wedding, Corporate, Private, Outdoor, Luxury]

  const MenuCategories: seq<MenuCategory> := [Vegetarian, NonVegetarian, Desserts]

  /** Every gallery category is offered, exactly once. */
  lemma GalleryCategoriesComplete(c: GalleryCategory)
    ensures c in GalleryCategories
    ensures forall i, j :: 0 <= i < j < |GalleryCategories| ==> GalleryCategories[i] != GalleryCategories[j]
  {
  }

  /** Every menu category is offered, exactly once. */
  lemma MenuCategoriesComplete(c: MenuCategory)
    ensures c in MenuCategories
    ensures forall i, j :: 0 <= i < j < |MenuCategories| ==> MenuCategories[i] != MenuCategories[j]
  {
  }

  /** The two settings read at startup. */
  datatype ClientConfig = ClientConfig(url: string, anonKey: string)

  /** Result of module initialisation: a configured client, or the thrown error. */
  datatype Startup = Started(config: ClientConfig) | Failed(message: string)

  const MissingConfigMessage: string := "Missing Supabase environment variables"

  /**
   * Module initialisation: `if (!url || !key) throw new Error(...)`.
   * An absent or empty setting stops startup with that message.
   */
  function CreateClient(url: Option<string>, anonKey: Option<string>): (r: Startup)
    ensures r.Started? <==> Truthy(url) && Truthy(anonKey)
    ensures r.Started? ==> r.config == ClientConfig(url.value, anonKey.value)
    ensures r.Failed? ==> r.message == MissingConfigMessage
  {
    if !Truthy(url) || !Truthy(anonKey) then Failed(MissingConfigMessage)
    else Started(ClientConfig(url.value, anonKey.value))
  }
}
