/**
 * The testimonial manager: the content editor over `testimonials`, with a
 * five-star rating picker in the form and star shading in the list.
 */
module TestimonialManager {
  import opened Backend
  import opened Supabase
  import opened ContentEditor

  /** The five fields the form edits; the optional video is a plain string here. */
  datatype TestimonialForm = TestimonialForm(
    reviewer_name: string,
    content: string,
    rating: int,
    photo_url: string,
    video_url: string)

  /** The initial form, and what `resetForm` restores: every string empty, five stars. */
  const EmptyForm: TestimonialForm := TestimonialForm("", "", 5, "", "")

  function TestimonialId(t: Testimonial): string
  {
    t.id
  }

  /** `handleEdit`'s copy of a testimonial into the form, with `video_url || ''`. */
  function FormOf(t: Testimonial): TestimonialForm
  {
    TestimonialForm(t.reviewer_name, t.content, t.rating, t.photo_url,
      if Truthy(t.video_url) then t.video_url.value else "")
  }

  /** `update(formData)` / `insert([formData])`: the form is written as it is. */
  function Payload(f: TestimonialForm): TestimonialForm
  {
    f
  }

  /** The stored testimonial after an update with the submitted fields. */
  function Patched(t: Testimonial, f: TestimonialForm): (r: Testimonial)
    ensures r.id == t.id && r.created_at == t.created_at
    ensures FormOf(r) == f
  {
    t.(reviewer_name := f.reviewer_name, content := f.content, rating := f.rating,
       photo_url := f.photo_url, video_url := Some(f.video_url))
  }

  /**
   * Saving a testimonial unchanged writes it back as it was exactly when it
   * had a video field; an absent video is written back as the empty string.
   */
  lemma UnchangedEditWritesBack(t: Testimonial)
    ensures Patched(t, Payload(FormOf(t))) == t <==> t.video_url.Some?
    ensures t.video_url.None? ==> Patched(t, Payload(FormOf(t))).video_url == Some("")
  {
  }

  /** The values of the rating buttons, in order. */
  const StarValues: seq<int> := [1, 2, 3, 4, 5]

  /** Clicking a rating button: the form takes that rating and nothing else changes. */
  function WithRating(f: TestimonialForm, star: int): (r: TestimonialForm)
    requires star in StarValues
    ensures 1 <= r.rating <= 5 && r.rating == star
    ensures r.(rating := f.rating) == f
  {
    f.(rating := star)
  }

  /** The form's picker: button `star` is filled when `star <= rating`. */
  function PickerStars(rating: int): (s: seq<bool>)
    ensures |s| == |StarValues|
  {
    seq(|StarValues|, i requires 0 <= i < |StarValues| => StarValues[i] <= rating)
  }

  /** The list's display: star `i` of `0..4` is filled when `i < rating`. */
  function ListStars(rating: int): (s: seq<bool>)
    ensures |s| == 5
  {
    seq(5, i => i < rating)
  }

  /** The number of filled stars. */
  function Filled(s: seq<bool>): (n: nat)
    ensures n <= |s|
  {
    if s == [] then 0 else Filled(s[..|s| - 1]) + (if s[|s| - 1] then 1 else 0)
  }

  /** `rating` clamped to `0..k`. */
  function Clamp(rating: int, k: nat): (n: nat)
    ensures n <= k
    ensures 0 <= rating <= k ==> n == rating
  {
    if rating < 0 then 0 else if rating > k then k else rating
  }

  lemma {:induction false} FilledPrefix(rating: int, k: nat)
    ensures Filled(seq(k, i => i < rating)) == Clamp(rating, k)
  {
    if k > 0 {
      var s := seq(k, i => i < rating);
      assert s[..k - 1] == seq(k - 1, i => i < rating);
      FilledPrefix(rating, k - 1);
    }
  }

  /**
   * The picker and the list shade the same stars for every rating, and the
   * list fills `min(max(rating, 0), 5)` of them.
   */
  lemma StarShading(rating: int)
    ensures PickerStars(rating) == ListStars(rating)
    ensures Filled(ListStars(rating)) == Clamp(rating, 5)
  {
    FilledPrefix(rating, 5);
  }

  /** A rating picked with the buttons shows exactly that many filled stars. */
  lemma PickedRatingShown(f: TestimonialForm, star: int)
    requires star in StarValues
    ensures Filled(ListStars(WithRating(f, star).rating)) == star
  {
    StarShading(star);
  }

  /** The component mounting: a fresh editor, with the initial list fetch applied. */
  method Mount(fetched: Outcome<seq<Testimonial>>) returns (e: Editor<Testimonial, TestimonialForm>)
    ensures fresh(e) && e.Valid() && e.Mode() == Closed
    ensures e.rows == AfterFetch([], fetched) && e.formData == EmptyForm
    ensures e.emptyForm == EmptyForm && e.idOf == TestimonialId
    ensures e.formOf == FormOf && e.payloadOf == Payload
  {
    e := new Editor(EmptyForm, TestimonialId, FormOf, Payload);
    e.Fetch(fetched);
  }
}
