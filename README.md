# Catering site front end: a verified model

The site is a catering business's React front end over a hosted database.
It has public pages (home-page carousels, a gallery, a blog, a contact
form) and an admin area (dashboard, four content managers, an inquiry list).
This project models the parts of that front end that make decisions, and
proves what they guarantee.

What is modelled:

- **Slug derivation.** Blog posts get a slug derived from their title.
  The model covers the four-stage pipeline and the slug fallback on submit.
- **The content editor.** Every admin manager shares one state machine:
  fetched rows, an open/closed form, the id being edited and the form
  contents. It handles toggle, edit, submit (update or insert),
  confirm-then-delete and reset. `ContentEditor.Editor` models it once.
  Each manager module supplies its empty form, its row-to-form copy, its
  submit payload and its row id.
- **The two home-page carousels.** This covers their wrap-around "next"
  and "previous" and their dots, plus the three-card window of the menu
  slider.
- **The gallery and blog index pages.** Each shows built-in placeholders
  when the fetch fails or finds nothing. The gallery also has a category
  filter and a lightbox.
- **One blog post's page.** It shows a spinner, then "not found" or the
  article, whose content is split into paragraphs at blank lines.
- **The contact form's submit sequence.** On submit the form opens a
  messaging link with a composed, percent-encoded message, then stores
  the inquiry. The stored outcome decides between the success note, with
  the form cleared, and the error note, with the form kept.
  `encodeURIComponent` is modelled in full (UTF-8, then `%XY` escapes);
  the link is proved to decode back to the composed message.
- **The header.** Hash links scroll on the home page and load the home
  page elsewhere. The colour scheme turns solid once the page is scrolled
  or off the home page, and the mobile menu closes on navigation.
- **The admin dashboard.** It has the sign-in guard, the four counts
  (zero when a count is missing) and tab selection with its heading.
- **The record types and their category enumerations,** and the startup
  guard on the two backend settings.

Each database call (select, insert, update, delete, count) becomes a
parameter, `Backend.Outcome`: `Ok(rows)` or `Err`. A handler that awaits
a call takes its answer as an argument. A handler that starts a refetch
after a successful write also takes the refetch's answer, and applies it
in the same step. `confirm()` is a boolean argument. The clock value
stamped on built-in placeholder rows is a `now` argument.

## Model

| member | source | states |
|---|---|---|
| Backend.AfterFetch | src/components/admin/BlogManager.tsx:22-31 | a failed select keeps the current list; a successful one replaces it with the returned rows |
| Backend.WithFallback | src/pages/Gallery.tsx:106-110 | the result is the fetched rows when the fetch succeeded with at least one row, and the defaults otherwise; non-empty defaults make the result non-empty |
| Supabase.ParseGalleryCategory | src/lib/supabase.ts:17 | a string parses to a gallery category only if that category's stored name is that string |
| Supabase.ParseMenuCategory | src/lib/supabase.ts:53 | a string parses to a menu category only if that category's stored name is that string |
| Supabase.GalleryCategoryRoundTrip | src/lib/supabase.ts:17 | every gallery category's stored name parses back to that category |
| Supabase.MenuCategoryRoundTrip | src/lib/supabase.ts:53 | every menu category's stored name parses back to that category |
| Supabase.GalleryCategoryNameInjective | src/lib/supabase.ts:17 | two gallery categories have the same stored name exactly when they are the same category |
| Supabase.MenuCategoryNameInjective | src/lib/supabase.ts:53 | two menu categories have the same stored name exactly when they are the same category |
| Supabase.GalleryCategoriesComplete | src/lib/supabase.ts:17 | the list of gallery categories holds each of the five exactly once |
| Supabase.MenuCategoriesComplete | src/lib/supabase.ts:53 | the list of menu categories holds each of the three exactly once |
| Supabase.CreateClient | src/lib/supabase.ts:3-10 | startup succeeds exactly when both settings are present and non-empty; it then carries those two values, and otherwise fails with the fixed message |
| Slug.LowerChar | src/components/admin/BlogManager.tsx:35 | an ASCII capital becomes its own small letter, 32 code points on; every other character is unchanged |
| Slug.ToLower | src/components/admin/BlogManager.tsx:35 | lowercasing keeps the length and lowercases each character in place |
| Slug.CollapseShape | src/components/admin/BlogManager.tsx:36 | after collapsing, only `[a-z0-9-]` remains, with no two dashes in a row; the first character is kept when alphanumeric and becomes a dash otherwise; the letters and digits are kept, in order |
| Slug.TrimDashesWellFormed | src/components/admin/BlogManager.tsx:37 | trimming one leading and one trailing dash gives a well-formed slug and keeps the letters and digits |
| Slug.GenerateSlugWellFormed | src/components/admin/BlogManager.tsx:33-38 | every derived slug has only `[a-z0-9-]`, no dash at either end and no two dashes in a row; it holds exactly the lowercased title's letters and digits, in order |
| Slug.GenerateSlugFixes | src/components/admin/BlogManager.tsx:33-38 | a well-formed slug derives to itself |
| Slug.GenerateSlugIdempotent | src/components/admin/BlogManager.tsx:33-38 | deriving a slug from a derived slug changes nothing |
| Slug.EmptySlugIffNoAlnum | src/components/admin/BlogManager.tsx:33-38 | the derived slug is empty exactly when the lowercased title has no ASCII letter or digit |
| Slug.TestPostExample | src/components/admin/BlogManager.tsx:33-38 | "Test Post!!" derives to "test-post" |
| Slug.StoredSlug | src/components/admin/BlogManager.tsx:42 | a typed slug is stored verbatim; an empty one is replaced by the slug derived from the title, which is well formed and holds the title's letters and digits |
| ContentEditor.RequestFor | src/components/admin/BlogManager.tsx:44-65 | submit sends an update keyed by the edited id exactly when that id is truthy, and an insert otherwise, with the given payload in both cases |
| ContentEditor.ModeOf | src/components/admin/BlogManager.tsx:8-9 | the form is closed exactly when `isAddingNew` is false; it is editing a row exactly when it is open and `editingId` is truthy |
| ContentEditor.Editor.constructor | src/components/admin/BlogManager.tsx:7-16 | initially there are no rows, the form is closed, nothing is being edited and the form is empty |
| ContentEditor.Editor.Fetch | src/components/admin/BlogManager.tsx:22-31 | a successful select replaces the rows; an error keeps them |
| ContentEditor.Editor.ResetForm | src/components/admin/BlogManager.tsx:93-101 | the form returns to its initial contents |
| ContentEditor.Editor.SetForm | src/components/admin/BlogManager.tsx:10-16 | a field edit gives the form the edited contents |
| ContentEditor.Editor.Toggle | src/components/admin/BlogManager.tsx:108-112 | the open flag flips, the edited id is cleared and the form is blanked, whatever the prior state; open-to-closed and closed-to-creating, keeping the editor invariant |
| ContentEditor.Editor.Edit | src/components/admin/BlogManager.tsx:68-78 | the edited id is the row's id, the form is copied from the row and the form is open |
| ContentEditor.Editor.Submit | src/components/admin/BlogManager.tsx:40-66 | the request is an update for a truthy edited id and an insert otherwise. A failed write changes nothing. After any success the rows are the refetch's result and the form is blank. A successful update clears the id but leaves the form open (editing becomes creating). A successful insert closes the form |
| ContentEditor.Editor.Delete | src/components/admin/BlogManager.tsx:80-91 | a delete is sent only after a confirmed prompt; the list is refetched only when the delete succeeds, and is otherwise unchanged |
| BlogManager.Payload | src/components/admin/BlogManager.tsx:42-58 | the submitted fields are the form's, except the slug: kept when typed, and the well-formed slug derived from the title when empty |
| BlogManager.Patched | src/components/admin/BlogManager.tsx:44-48 | an update keeps the post's id and dates and stores exactly the submitted form fields |
| BlogManager.UnchangedEditWritesBack | src/components/admin/BlogManager.tsx:42-78 | editing a post and saving it unchanged writes it back unchanged exactly when its slug was non-empty or its title has no letter or digit; an empty slug gains the derived one |
| BlogManager.Mount | src/components/admin/BlogManager.tsx:7-31 | the manager starts closed with an empty form and the rows of the initial fetch, wired to the blog-post empty form, id, row-to-form copy and slug-filling payload |
| TestimonialManager.Patched | src/components/admin/TestimonialManager.tsx:36-40 | an update keeps id and creation date and stores exactly the submitted form fields |
| TestimonialManager.UnchangedEditWritesBack | src/components/admin/TestimonialManager.tsx:60-70 | saving an edited testimonial unchanged writes it back unchanged exactly when it had a video field; an absent video is written back as the empty string |
| TestimonialManager.WithRating | src/components/admin/TestimonialManager.tsx:133-137 | pressing star k sets the rating to k, in 1..5, and changes nothing else |
| TestimonialManager.FilledPrefix | src/components/admin/TestimonialManager.tsx:212-218 | of k stars shaded by `i < rating`, the filled ones number the rating clamped to 0..k |
| TestimonialManager.StarShading | src/components/admin/TestimonialManager.tsx:133-143 | the form's picker and the list shade the same stars for any rating; the list fills min(max(rating, 0), 5) of them |
| TestimonialManager.PickedRatingShown | src/components/admin/TestimonialManager.tsx:137 | a rating picked with the buttons shows exactly that many filled stars in the list |
| TestimonialManager.Mount | src/components/admin/TestimonialManager.tsx:7-31 | the manager starts closed, its form empty with rating 5, holding the rows of the initial fetch. Its row-to-form copy maps an absent video to "", and it writes the form as it is |
| GalleryManager.Patched | src/components/admin/GalleryManager.tsx:35-39 | an update keeps id and creation date and stores exactly the submitted form fields |
| GalleryManager.UnchangedEditWritesBack | src/components/admin/GalleryManager.tsx:59-68 | saving an edited image unchanged writes it back exactly as it was |
| GalleryManager.CategoryOptionsExact | src/components/admin/GalleryManager.tsx:92 | the select offers every gallery category, each once, in order, under a name that parses back to it |
| GalleryManager.ChooseCategory | src/components/admin/GalleryManager.tsx:131-139 | choosing an option sets the category named by it and nothing else |
| GalleryManager.Mount | src/components/admin/GalleryManager.tsx:7-30 | the manager starts closed, its form empty with category Wedding, holding the rows of the initial fetch |
| MenuManager.Patched | src/components/admin/MenuManager.tsx:35-39 | an update keeps id and creation date and stores exactly the submitted form fields |
| MenuManager.UnchangedEditWritesBack | src/components/admin/MenuManager.tsx:59-68 | saving an edited item unchanged writes it back exactly as it was |
| MenuManager.CategoryOptionsExact | src/components/admin/MenuManager.tsx:92 | the select offers each of Vegetarian, Non-Vegetarian and Desserts once, in order, under a name that parses back to it |
| MenuManager.ChooseCategory | src/components/admin/MenuManager.tsx:131-139 | choosing an option sets the category named by it and nothing else |
| MenuManager.Mount | src/components/admin/MenuManager.tsx:7-30 | the manager starts closed, its form empty with category Vegetarian, holding the rows of the initial fetch |
| InquiriesViewer.ListingOf | src/components/admin/InquiriesViewer.tsx:53-136 | the badge total equals the number of cards and of inquiries; the empty notice shows exactly when there are none; card i shows inquiry i's fields, whether it asked for WhatsApp, a WhatsApp reply link greeting it by name and a mail link to its address |
| InquiriesViewer.Viewer.constructor | src/components/admin/InquiriesViewer.tsx:7 | the list starts empty |
| InquiriesViewer.Viewer.Fetch | src/components/admin/InquiriesViewer.tsx:13-22 | a successful select replaces the list wholesale; an error keeps it |
| InquiriesViewer.Viewer.Delete | src/components/admin/InquiriesViewer.tsx:24-35 | a delete is sent only after a confirmed prompt; only a successful delete refetches, and a failed one leaves the list as it was |
| InquiriesViewer.Mount | src/components/admin/InquiriesViewer.tsx:7-22 | the viewer starts with the result of the initial fetch applied to an empty list |
| Carousel.Forward | src/components/Testimonials.tsx:27-29 | "next" stays in range and, from a valid index, moves one up or wraps from the last to the first |
| Carousel.Backward | src/components/Testimonials.tsx:31-33 | "previous" stays in range and, from a valid index, moves one down or wraps from the first to the last |
| Carousel.ForwardBackwardInverse | src/components/OurMenus.tsx:39-45 | within range, "previous" undoes "next" and "next" undoes "previous" |
| Carousel.AdvanceWraps | src/components/OurMenus.tsx:39-41 | k presses of "next", for k up to the length, move k places round the ring |
| Carousel.AdvanceCycles | src/components/OurMenus.tsx:39-41 | every index is reached from the first by "next", and as many presses as there are items come back round |
| Testimonials.DisplayList | src/components/Testimonials.tsx:35-56 | the shown quotes are the fetched testimonials, in order, when there are any, and the three built-in ones otherwise |
| Testimonials.Modulus | src/components/Testimonials.tsx:28 | the wrap modulus is positive and equals the fetched count when there is one |
| Testimonials.DefaultsStuckAtFirst | src/components/Testimonials.tsx:28-56 | with nothing fetched, three quotes and their controls are shown, yet "next" and "previous" send every index to 0 |
| Testimonials.FetchedCycle | src/components/Testimonials.tsx:27-33 | over fetched testimonials the modulus is the number shown; "next" and "previous" undo each other, and a full round of "next" returns to the start |
| Testimonials.Slider.constructor | src/components/Testimonials.tsx:9-10 | nothing fetched yet, index 0 |
| Testimonials.Slider.Shown | src/components/Testimonials.tsx:85-89 | a quote is shown exactly when the index is within the displayed list, and it is the quote at the index |
| Testimonials.Slider.Fetch | src/components/Testimonials.tsx:16-25 | a successful select replaces the list; an error keeps it |
| Testimonials.Slider.Next | src/components/Testimonials.tsx:27-29 | the index becomes "next" of the old one modulo the fetched count, or 1 |
| Testimonials.Slider.Prev | src/components/Testimonials.tsx:31-33 | the index becomes "previous" of the old one modulo the fetched count, or 1 |
| Testimonials.Slider.GoTo | src/components/Testimonials.tsx:114-119 | a dot exists only while more than one quote is displayed, one per quote; pressing dot k shows quote k |
| Testimonials.Mount | src/components/Testimonials.tsx:10-25 | the carousel starts at index 0 on the initial fetch's result, and a quote is always shown |
| OurMenus.Slice | src/components/OurMenus.tsx:72-78 | `slice` clamps both bounds to the length; element k of the result is element start+k of the list |
| OurMenus.WindowShape | src/components/OurMenus.tsx:72-82 | for at least three cards and a valid start, the wrapped part appears exactly when the window runs past the end and then holds `(i + 3) % n` cards; the window holds three cards, card k being card `(i + k) % n` |
| OurMenus.ShownCards | src/components/OurMenus.tsx:72-82 | at each of the five indices the slider shows three cards, starting with the current one and continuing round the ring |
| OurMenus.Slider.constructor | src/components/OurMenus.tsx:9 | the slider starts at the first card |
| OurMenus.Slider.Next | src/components/OurMenus.tsx:39-41 | the index becomes "next" of the old one modulo five and stays in range |
| OurMenus.Slider.Prev | src/components/OurMenus.tsx:43-45 | the index becomes "previous" of the old one modulo five and stays in range |
| OurMenus.Slider.GoTo | src/components/OurMenus.tsx:94-97 | dot k, one per card, sets the index to k |
| GalleryPage.Categories | src/pages/Gallery.tsx:6 | the filter tabs are "All" followed by the five gallery category names in their fixed order |
| GalleryPage.DefaultImages | src/pages/Gallery.tsx:8-89 | there are ten built-in images, the first titled "Wedding Event" |
| GalleryPage.ByCategory | src/pages/Gallery.tsx:115 | an image is kept exactly when it is in the list and its category's name is the selected one; the result is no longer than the list |
| GalleryPage.ByCategoryAppend | src/pages/Gallery.tsx:115 | filtering a concatenation filters both parts and keeps their order, so the filter is an order-preserving subsequence |
| GalleryPage.Filtered | src/pages/Gallery.tsx:113-115 | an image is shown exactly when it is in the list and either "All" is selected or its category's name is the selected one; under "All" the list is shown whole |
| GalleryPage.ByCategoryOne | src/pages/Gallery.tsx:115 | when exactly one image has the category, the filter yields exactly that image |
| GalleryPage.OnePerCategory | src/pages/Gallery.tsx:115 | five images in category order give exactly one image per category tab |
| GalleryPage.DefaultsTwoPerCategory | src/pages/Gallery.tsx:8-89 | each of the five category tabs shows exactly two of the built-in images |
| GalleryPage.Page.constructor | src/pages/Gallery.tsx:92-94 | the page starts under "All" with no images and no lightbox |
| GalleryPage.Page.Fetch | src/pages/Gallery.tsx:100-111 | the images become the fetched rows when there are any and the ten built-in ones otherwise, so never empty |
| GalleryPage.Page.Select | src/pages/Gallery.tsx:130-133 | a tab click selects that tab, which is always one of the tabs |
| GalleryPage.Page.OpenLightbox | src/pages/Gallery.tsx:154 | clicking a shown image opens it in the lightbox |
| GalleryPage.Page.CloseLightbox | src/pages/Gallery.tsx:170-177 | the backdrop and the close button both close the lightbox |
| GalleryPage.Mount | src/pages/Gallery.tsx:92-111 | the page starts under "All", with no lightbox and the fetched or built-in images |
| BlogPage.DefaultPosts | src/pages/Blog.tsx:7-41 | there are three built-in posts |
| BlogPage.DefaultPostsDistinct | src/pages/Blog.tsx:7-41 | the built-in posts have pairwise distinct ids and pairwise distinct slugs |
| BlogPage.PathPart | src/pages/Blog.tsx:108-116 | the link's path is the prefix of its `to` before the first '?' or '#', and all of it when it has neither |
| BlogPage.ResolvedFromInput | src/App.tsx:30 | dot-segment resolution keeps only segments of its input, plus empty ones |
| BlogPage.ParamValue | src/pages/BlogPost.tsx:8 | the route parameter is never longer than its raw text, non-empty when that is, and equal to it exactly when it has no '%' or does not decode |
| BlogPage.RouteSlug | src/App.tsx:30 | the post route, when it matches a link, gives the post page a non-empty slug |
| BlogPage.LinkRoutesBack | src/pages/Blog.tsx:108-116 | a post's link gives the post page its own slug exactly when the slug is non-empty, has no '/', '?' or '#', is not "." or "..", and has no '%' or does not decode |
| BlogPage.QueryNotPartOfSlug | src/components/admin/BlogManager.tsx:42 | a typed slug with a '?' or '#' after a routable part opens the post of that part only |
| BlogPage.TrailingSlashIgnored | src/App.tsx:30 | a routable slug followed by '/' still routes to that slug |
| BlogPage.RouteIgnoresCase | src/App.tsx:30 | the route matches "/Blog/" as it matches "/blog/" |
| BlogPage.DotSlugsUnrouted | src/App.tsx:30 | the slugs "." and ".." give the post route nothing to match |
| BlogPage.DerivedSlugRoutesBack | src/pages/Blog.tsx:108-116 | a non-empty derived slug always routes back to itself |
| BlogPage.Cards | src/pages/Blog.tsx:85-116 | one card per post, in the fetched order, with its title and excerpt and the link `/blog/` followed by its slug |
| BlogPage.CardOpensItsPost | src/pages/Blog.tsx:108-116 | following a card's link opens its own post exactly when the post's slug is routable |
| BlogPage.Page.constructor | src/pages/Blog.tsx:44 | the page starts with no posts |
| BlogPage.Page.Fetch | src/pages/Blog.tsx:50-61 | the posts become the fetched rows when there are any and the three built-in ones otherwise |
| BlogPage.Mount | src/pages/Blog.tsx:44-61 | the page starts with the fetched or built-in posts |
| BlogPostPage.ParagraphsPartitionContent | src/pages/BlogPost.tsx:100 | the paragraphs joined with blank lines give back the content; no paragraph holds a blank line; content without one is a single paragraph |
| BlogPostPage.ViewOf | src/pages/BlogPost.tsx:40-105 | the spinner shows exactly while loading. "Post Not Found" shows exactly when loading is done and there is no post. Otherwise the post's title and paragraphs show |
| BlogPostPage.Page.constructor | src/pages/BlogPost.tsx:8-10 | the page starts with no post and the spinner on |
| BlogPostPage.Page.Effect | src/pages/BlogPost.tsx:12-29 | a lookup runs only for a truthy slug, and then the spinner goes off whatever the answer. A post is taken only from a successful answer with a row; otherwise the previous post stays. With no slug nothing changes |
| BlogPostPage.Page.Navigate | src/pages/BlogPost.tsx:8-16 | a new route slug replaces the old one, leaving the loaded post and the spinner as they were until the effect runs |
| BlogPostPage.Visit | src/pages/BlogPost.tsx:12-62 | a first visit with a truthy slug ends on the article when the lookup found the post, and on "Post Not Found" otherwise; without a slug the spinner stays |
| UriComponent.DecodeEncode | src/components/Contact.tsx:25-27 | decoding the percent-encoded text gives back the text |
| UriComponent.EncodeInjective | src/components/Contact.tsx:25-27 | different texts have different encodings |
| UriComponent.EncodeUnreserved | src/components/Contact.tsx:25-27 | text made only of unreserved characters is left as it is |
| UriComponent.DecodeLength | src/pages/BlogPost.tsx:8 | decoding never lengthens text, shortens text with an escape, and keeps non-empty text non-empty |
| UriComponent.DecodePlain | src/pages/BlogPost.tsx:8 | text without '%' decodes to itself |
| UriComponent.DecodeOneEncodeChar | src/components/Contact.tsx:25-27 | the encoding of one character, followed by anything, is read back as that character over exactly its own length |
| Contact.WhatsAppLink | src/components/Contact.tsx:25-28 | the opened link is the messaging prefix followed by text that decodes to the composed message |
| Contact.InsertFor | src/components/Contact.tsx:30-38 | the stored row carries the form's name, email, phone and message, and the WhatsApp flag is always set |
| Contact.CheckboxIgnored | src/components/Contact.tsx:195-196 | the checkbox changes neither the stored row nor the opened link |
| Contact.LinkDeterminesMessage | src/components/Contact.tsx:25-28 | two forms giving the same link have the same composed message |
| Contact.ContactSection.constructor | src/components/Contact.tsx:9-17 | the form starts with empty fields and the box ticked, not submitting, with no status note |
| Contact.ContactSection.Edit | src/components/Contact.tsx:195-196 | a field or checkbox change gives the form the new contents |
| Contact.ContactSection.BeginSubmit | src/components/Contact.tsx:19-38 | "Sending..." goes on and the status note is cleared; the link opened and the row sent are built from the current form |
| Contact.ContactSection.FinishSubmit | src/components/Contact.tsx:40-49 | a successful insert shows the thank-you note and clears the form; a failed one shows the error note and keeps the form; either way "Sending..." goes off |
| Contact.Submit | src/components/Contact.tsx:19-50 | the link and row come from the form as submitted, whatever the insert's answer; the final state is as in FinishSubmit |
| Header.MobileLinks | src/components/Header.tsx:25-36 | the mobile menu lists seven links, the three left ones then the four right ones |
| Header.HashBetweenMarks | src/components/Header.tsx:50 | for a target with a '#', the hash is the '#'-free text between the first '#' and the next '#' or the end |
| Header.NavClick | src/components/Header.tsx:47-57 | A target without '#' is not intercepted. Off the home page a hash target loads "/#" + hash. On the home page it scrolls to "#" + hash |
| Header.ScrollTarget | src/components/Header.tsx:38-45 | a section is looked up exactly when the selector starts with '#' |
| Header.SinglePathHash | src/components/Header.tsx:50 | a target "/#name" with no further '#' has hash "name" |
| Header.InPageLinks | src/components/Header.tsx:47-57 | an in-page link leads to its own target from another page; on the home page it scrolls to its section, past a guard it always passes |
| Header.TransparentIffTop | src/components/Header.tsx:11-60 | the text is white and the background transparent exactly when the page is not scrolled and is the home page |
| Header.NavBar.constructor | src/components/Header.tsx:7-8 | the menu starts closed and the header unscrolled |
| Header.NavBar.OnScroll | src/components/Header.tsx:14-16 | the header is scrolled exactly when the page is more than 20 pixels down |
| Header.NavBar.OnLocationChange | src/components/Header.tsx:21-23 | every location change closes the mobile menu |
| Header.NavBar.ToggleMenu | src/components/Header.tsx:136 | the menu button flips the menu |
| AdminDashboard.TabIdInjective | src/pages/AdminDashboard.tsx:48-53 | distinct tabs have distinct ids |
| AdminDashboard.CountOrZero | src/pages/AdminDashboard.tsx:36-39 | a missing count shows as zero and a present count as itself |
| AdminDashboard.Tabs | src/pages/AdminDashboard.tsx:48-53 | four cards in the fixed order, each with its tab's id, label and table count |
| AdminDashboard.FindLabelNone | src/pages/AdminDashboard.tsx:97 | the lookup finds nothing exactly when no card has the id |
| AdminDashboard.FindLabelFirst | src/pages/AdminDashboard.tsx:97 | otherwise it finds the label of the first card with the id |
| AdminDashboard.EveryTabListed | src/pages/AdminDashboard.tsx:48-53 | every tab has a card |
| AdminDashboard.HeadingIsActiveLabel | src/pages/AdminDashboard.tsx:48-97 | the panel heading is the selected tab's own label, whatever the counts |
| AdminDashboard.Placeholder | src/pages/AdminDashboard.tsx:105-108 | the panel shows two lines, each naming the selected tab by its id |
| AdminDashboard.PlaceholderNamesTab | src/pages/AdminDashboard.tsx:105-108 | two tabs show the same placeholder exactly when they are the same tab |
| AdminDashboard.Dashboard.constructor | src/pages/AdminDashboard.tsx:11-17 | all counts start at zero with the gallery tab selected |
| AdminDashboard.Dashboard.OnUser | src/pages/AdminDashboard.tsx:19-41 | with no user, redirect to the login page and leave the counts; with one, no redirect and each count as its query returned it, or zero |
| AdminDashboard.Dashboard.SelectTab | src/pages/AdminDashboard.tsx:82 | a card click selects its tab |
| AdminDashboard.Dashboard.SignOut | src/pages/AdminDashboard.tsx:43-46 | signing out leads to the login page |
| AdminDashboard.Dashboard.Heading | src/pages/AdminDashboard.tsx:96-98 | the heading is always the selected tab's label |

## Left out

- The hosted database client, its network round trips and its access
  rules: each call is an `Outcome` argument. This also drops the
  lookup's error when several posts share a slug; that case arrives here
  as `Err`.
- Interleavings of handlers while a call is outstanding. A write and
  the refetch it starts are applied together, and responses arriving out
  of order are not modelled.
- The concurrency of the four count queries on the dashboard: they are
  four independent arguments.
- The authentication provider: the dashboard sees only "signed in or not".
- Browser effects are outputs or left out: opening a window, setting the
  location, scrolling into view, the scroll listener's registration and
  `console.error`. `confirm()` is a boolean argument.
- Date formatting with `toLocaleDateString`, and the clock. Built-in
  rows take a `now` argument.
- BlogManager.Patched: the `updated_at` stamp an update writes is not modelled (clock value).
- Slug.LowerChar: lowercases only ASCII A-Z; JavaScript's Unicode case mapping is not modelled.
- BlogPage.RouteSlug: models the router (React Router 6) and the browser's URL parsing only in part.
  Modelled: the cut at the first '?' or '#', dot-segment removal, the case-insensitive "blog" and
  the trailing slashes the route allows, and the decoding of the parameter.
  Not modelled: the URL parser's removal of tabs and newlines, its trimming of trailing spaces, its
  reading of `\` as `/`, its "%2e" dot segments, and its escaping of characters a path may not hold.
  That escaping is undone by the parameter's decoding, except in a segment that also holds an escape
  that does not decode. Relative links are not modelled; the site renders none.
- The browser's `required` validation of form fields, which blocks a
  submit before the handler runs.
- The browser's own escaping of the inquiry reply link, which puts the
  name into the URL as typed.
- The dashboard's "Add New" button, which has no handler, and its
  placeholder panel, whose text `AdminDashboard.Placeholder` gives. The code
  shows placeholder text where a design might embed the managers.
- Markup, icons, animation properties and styling classes, except the
  colour class strings of the header.
- Presentational files outside the modelled components (hero, story,
  services, footer, menu card, not-found page, home page). The route
  table is used only for the post route's shape.
