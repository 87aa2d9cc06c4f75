/**
 * The home-page testimonial carousel. It shows the fetched testimonials,
 * or three built-in quotes while there are none; "next" and "previous"
 * wrap modulo `testimonials.length || 1`, the fetched count, so over the
 * built-in quotes they always land on the first one.
 */
module Testimonials {
  import opened Backend
  import opened Supabase
  import opened Carousel

  /** The part of a testimonial the carousel shows. */
  datatype Quote = Quote(id: string, reviewer_name: string, content: string)

  function QuoteOf(t: Testimonial): Quote
  {
    Quote(t.id, t.reviewer_name, t.content)
  }

  /** The three quotes shown while no testimonial has been fetched. */
  const DefaultQuotes: seq<Quote> := [
    Quote("1", "Priya & Raj",
      "Shanvik made our wedding day absolutely perfect! The food was exceptional and the service was impeccable. All our guests are still talking about the delicious spread."),
    Quote("2", "Anand Kumar",
      "We hired Shanvik for our corporate event and they exceeded all expectations. Professional, punctual, and the food quality was outstanding. Highly recommended!"),
    Quote("3", "Lakshmi Reddy",
      "Thank you for making my mother's 75th birthday so special. The traditional dishes were authentic and reminded us of home-cooked meals. Personal attention to every detail!")
  ]

  /** `displayTestimonials`: the fetched testimonials when there are any, else the three defaults. */
  function DisplayList(fetched: seq<Testimonial>): (r: seq<Quote>)
    ensures |r| > 0
    ensures |fetched| > 0 ==> |r| == |fetched| && forall k :: 0 <= k < |r| ==> r[k] == QuoteOf(fetched[k])
    ensures |fetched| == 0 ==> r == DefaultQuotes
  {
    if |fetched| > 0 then seq(|fetched|, k requires 0 <= k < |fetched| => QuoteOf(fetched[k]))
    else DefaultQuotes
  }

  /** `testimonials.length || 1`: the modulus of "next" and "previous". */
  function Modulus(fetched: seq<Testimonial>): (m: nat)
    ensures m > 0
    ensures |fetched| > 0 ==> m == |fetched|
  {
    if |fetched| > 0 then |fetched| else 1
  }

  /** The previous, next and dot controls are rendered only for more than one quote. */
  predicate ControlsShown(display: seq<Quote>)
  {
    |display| > 1
  }

  /**
   * Behaviour over the defaults: the three quotes and their controls are
   * shown, yet "next" and "previous" send every index to the first quote.
   */
  lemma DefaultsStuckAtFirst(i: nat)
    ensures |DisplayList([])| == 3 && ControlsShown(DisplayList([]))
    ensures Forward(i, Modulus([])) == 0 && Backward(i, Modulus([])) == 0
  {
  }

  /** Over fetched testimonials, "next" and "previous" cycle through exactly the displayed ones. */
  lemma FetchedCycle(fetched: seq<Testimonial>, i: nat)
    requires 0 < |fetched| && i < |fetched|
    ensures Modulus(fetched) == |DisplayList(fetched)|
    ensures Backward(Forward(i, Modulus(fetched)), Modulus(fetched)) == i
    ensures Forward(Backward(i, Modulus(fetched)), Modulus(fetched)) == i
    ensures Advance(i, Modulus(fetched), |fetched|) == i
  {
    ForwardBackwardInverse(i, |fetched|);
    AdvanceCycles(i, |fetched|);
  }

  class Slider {
    var testimonials: seq<Testimonial>
    var currentIndex: nat

    constructor ()
      ensures testimonials == [] && currentIndex == 0
    {
      testimonials := [];
      currentIndex := 0;
    }

    function Display(): seq<Quote>
      reads this
    {
      DisplayList(testimonials)
    }

    /** `displayTestimonials[currentIndex]?.…`: the quote shown, or nothing when the index is past the end. */
    function Shown(): (q: Option<Quote>)
      reads this
      ensures q.Some? <==> currentIndex < |Display()|
      ensures q.Some? ==> q.value == Display()[currentIndex]
    {
      if currentIndex < |Display()| then Some(Display()[currentIndex]) else None
    }

    /** `fetchTestimonials`: a successful select replaces the list, an error keeps it. */
    method Fetch(result: Outcome<seq<Testimonial>>)
      modifies this`testimonials
      ensures testimonials == AfterFetch(old(testimonials), result)
    {
      if result.Ok? {
        testimonials := result.rows;
      }
    }

    method Next()
      modifies this`currentIndex
      ensures currentIndex == Forward(old(currentIndex), Modulus(testimonials))
    {
      currentIndex := (currentIndex + 1) % Modulus(testimonials);
    }

    method Prev()
      modifies this`currentIndex
      ensures currentIndex == Backward(old(currentIndex), Modulus(testimonials))
    {
      currentIndex := (currentIndex - 1 + Modulus(testimonials)) % Modulus(testimonials);
    }

    /** Dot `index`: a dot exists for each displayed quote, and only when the controls are shown. */
    method GoTo(index: nat)
      requires ControlsShown(Display()) && index < |Display()|
      modifies this`currentIndex
      ensures currentIndex == index && Shown() == Some(Display()[index])
    {
      currentIndex := index;
    }
  }

  /** The component mounting: index 0, with the initial fetch applied; a quote is always shown. */
  method Mount(fetched: Outcome<seq<Testimonial>>) returns (s: Slider)
    ensures fresh(s) && s.currentIndex == 0
    ensures s.testimonials == AfterFetch([], fetched)
    ensures s.Shown() == Some(s.Display()[0])
  {
    s := new Slider();
    s.Fetch(fetched);
  }
}
