/**
 * The admin dashboard: a signed-out visitor is sent to the login page;
 * a signed-in one sees four tab cards with the row count of each table,
 * and a panel headed by the label of the selected tab.
 */
module AdminDashboard {
  import opened Backend

  const LoginPath: string := "/admin/login"

  datatype Tab = GalleryTab | TestimonialsTab | BlogTab | InquiriesTab

  /** The tab's id, which is also the text the placeholder panel names. */
  function TabId(t: Tab): string
  {
    match t
    case GalleryTab => "gallery"
    case TestimonialsTab => "testimonials"
    case BlogTab => "blog"
    case InquiriesTab => "inquiries"
  }

  function TabLabel(t: Tab): string
  {
    match t
    case GalleryTab => "Gallery"
    case TestimonialsTab => "Testimonials"
    case BlogTab => "Blog Posts"
    case InquiriesTab => "Inquiries"
  }

  /** Distinct tabs have distinct ids, so an id names one tab. */
  lemma TabIdInjective(t: Tab, u: Tab)
    ensures TabId(t) == TabId(u) <==> t == u
  {
    if t != u {
      assert TabId(t)[0] != TabId(u)[0] || |TabId(t)| != |TabId(u)|;
    }
  }

  datatype Stats = Stats(galleryImages: nat, testimonials: nat, blogPosts: nat, inquiries: nat)

  const ZeroStats := Stats(0, 0, 0, 0)

  /** `result.count || 0`: a missing count (a failed query) shows as zero. */
  function CountOrZero(count: Option<nat>): (r: nat)
    ensures count.None? ==> r == 0
    ensures count.Some? ==> r == count.value
  {
    if count.Some? && count.value != 0 then count.value else 0
  }

  function StatsOf(gallery: Option<nat>, testimonials: Option<nat>, blog: Option<nat>, inquiries: Option<nat>): Stats
  {
    Stats(CountOrZero(gallery), CountOrZero(testimonials), CountOrZero(blog), CountOrZero(inquiries))
  }

  /** One card of the stats grid. */
  datatype TabCard = TabCard(id: string, caption: string, count: nat)

  const TabOrder: seq<Tab> := [GalleryTab, TestimonialsTab, BlogTab, InquiriesTab]

  function CountOf(stats: Stats, t: Tab): nat
  {
    match t
    case GalleryTab => stats.galleryImages
    case TestimonialsTab => stats.testimonials
    case BlogTab => stats.blogPosts
    case InquiriesTab => stats.inquiries
  }

  /** The `tabs` array: one card per tab, in order, each with its table's count. */
  function Tabs(stats: Stats): (r: seq<TabCard>)
    ensures |r| == |TabOrder| == 4
    ensures forall i :: 0 <= i < |r| ==>
      r[i] == TabCard(TabId(TabOrder[i]), TabLabel(TabOrder[i]), CountOf(stats, TabOrder[i]))
  {
    seq(|TabOrder|, i requires 0 <= i < |TabOrder| =>
      TabCard(TabId(TabOrder[i]), TabLabel(TabOrder[i]), CountOf(stats, TabOrder[i])))
  }

  /** Every tab has a card. */
  lemma EveryTabListed(t: Tab)
    ensures t in TabOrder
  {
  }

  /** `tabs.find(t => t.id === id)?.label`. */
  function FindLabel(cards: seq<TabCard>, id: string): Option<string>
  {
    if cards == [] then None
    else if cards[0].id == id then Some(cards[0].caption)
    else FindLabel(cards[1..], id)
  }

  /** The search finds nothing exactly when no card has the id. */
  lemma {:induction false} FindLabelNone(cards: seq<TabCard>, id: string)
    ensures FindLabel(cards, id).None? <==> forall i :: 0 <= i < |cards| ==> cards[i].id != id
  {
    if cards != [] && cards[0].id != id {
      FindLabelNone(cards[1..], id);
      assert forall i :: 1 <= i < |cards| ==> cards[i] == cards[1..][i - 1];
    }
  }

  /** Otherwise it finds the label of the first card with the id. */
  lemma {:induction false} FindLabelFirst(cards: seq<TabCard>, id: string, i: int)
    requires 0 <= i < |cards| && cards[i].id == id
    requires forall j :: 0 <= j < i ==> cards[j].id != id
    ensures FindLabel(cards, id) == Some(cards[i].caption)
  {
    if i > 0 {
      FindLabelFirst(cards[1..], id, i - 1);
    }
  }

  /** The panel heading is always the selected tab's own label, whatever the counts. */
  lemma HeadingIsActiveLabel(stats: Stats, t: Tab)
    ensures FindLabel(Tabs(stats), TabId(t)) == Some(TabLabel(t))
  {
    var cards := Tabs(stats);
    EveryTabListed(t);
    var k :| 0 <= k < |TabOrder| && TabOrder[k] == t;
    forall j | 0 <= j < k
      ensures cards[j].id != TabId(t)
    {
      TabIdInjective(TabOrder[j], t);
    }
    FindLabelFirst(cards, TabId(t), k);
  }

  const PlaceholderLead: string := "Content management interface for "
  const PlaceholderPrompt: string := "Upload and manage your "

  /** The placeholder panel: two lines, each naming the selected tab by its id. */
  function Placeholder(t: Tab): (r: seq<string>)
    ensures |r| == 2
    ensures r[0] == PlaceholderLead + TabId(t)
    ensures r[1] == PlaceholderPrompt + TabId(t) + " here"
  {
    [PlaceholderLead + TabId(t), PlaceholderPrompt + TabId(t) + " here"]
  }

  /** Each tab has its own placeholder text, so the panel tells which tab is open. */
  lemma PlaceholderNamesTab(t: Tab, u: Tab)
    ensures Placeholder(t) == Placeholder(u) <==> t == u
  {
    if Placeholder(t) == Placeholder(u) {
      var a, b := Placeholder(t)[0], Placeholder(u)[0];
      assert a[|PlaceholderLead|..] == TabId(t);
      assert b[|PlaceholderLead|..] == TabId(u);
      TabIdInjective(t, u);
    }
  }

  class Dashboard {
    var stats: Stats
    var activeTab: Tab

    /** Initial state: all counts zero, the gallery tab selected. */
    constructor ()
      ensures stats == ZeroStats && activeTab == GalleryTab
    {
      stats := ZeroStats;
      activeTab := GalleryTab;
    }

    /**
     * The effect on `[user]`: with no user, redirect to the login page and
     * fetch nothing; otherwise fetch the four counts (each query's count
     * is passed in, `None` where the query came back without one).
     */
    method OnUser(signedIn: bool, gallery: Option<nat>, testimonials: Option<nat>, blog: Option<nat>, inquiries: Option<nat>)
      returns (redirect: Option<string>)
      modifies this`stats
      ensures !signedIn ==> redirect == Some(LoginPath) && stats == old(stats)
      ensures signedIn ==> redirect == None && stats == StatsOf(gallery, testimonials, blog, inquiries)
    {
      if !signedIn {
        redirect := Some(LoginPath);
        return;
      }
      redirect := None;
      stats := StatsOf(gallery, testimonials, blog, inquiries);
    }

    /** A click on a tab card selects that tab. */
    method SelectTab(t: Tab)
      modifies this`activeTab
      ensures activeTab == t
    {
      activeTab := t;
    }

    /** `handleSignOut`: after signing out, go to the login page. */
    method SignOut() returns (redirect: string)
      ensures redirect == LoginPath
    {
      redirect := LoginPath;
    }

    /** The panel heading. */
    function Heading(): (r: Option<string>)
      reads this
      ensures r == Some(TabLabel(activeTab))
    {
      HeadingIsActiveLabel(stats, activeTab);
      FindLabel(Tabs(stats), TabId(activeTab))
    }
  }
}
