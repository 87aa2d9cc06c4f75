/**
 * The admin list of contact inquiries: fetched newest first, deletable
 * after a confirmation, with a total badge and one card per inquiry.
 */
module InquiriesViewer {
  import opened Backend
  import opened Supabase

  /** What one inquiry's card shows, with its two reply links. */
  datatype Card = Card(
    name: string,
    email: string,
    phone: string,
    message: string,
    whatsAppRequested: bool,
    whatsAppLink: string,
    mailLink: string)

  /** The rendered view: the count badge, the cards in list order, and the empty-state notice. */
  datatype Listing = Listing(total: int, cards: seq<Card>, emptyNotice: bool)

  /** The reply link on each card; the name is put into the text unencoded. */
  function ReplyLink(name: string): string
  {
    "https://wa.me/919840650939?text=Hi " + name + ", regarding your inquiry..."
  }

  function CardOf(q: ContactInquiry): Card
  {
    Card(q.name, q.email, q.phone, q.message, q.via_whatsapp, ReplyLink(q.name), "mailto:" + q.email)
  }

  /**
   * The badge counts exactly the cards shown, the notice shows exactly when
   * there are none, and card `i` is inquiry `i`.
   */
  function ListingOf(inquiries: seq<ContactInquiry>): (v: Listing)
    ensures v.total == |v.cards| == |inquiries|
    ensures v.emptyNotice <==> v.cards == []
    ensures forall i :: 0 <= i < |v.cards| ==>
      && v.cards[i].name == inquiries[i].name && v.cards[i].email == inquiries[i].email
      && v.cards[i].phone == inquiries[i].phone && v.cards[i].message == inquiries[i].message
      && (v.cards[i].whatsAppRequested <==> inquiries[i].via_whatsapp)
      && v.cards[i].whatsAppLink == ReplyLink(inquiries[i].name)
      && v.cards[i].mailLink == "mailto:" + inquiries[i].email
  {
    var cards := seq(|inquiries|, i requires 0 <= i < |inquiries| => CardOf(inquiries[i]));
    Listing(|cards|, cards, |cards| == 0)
  }

  class Viewer {
    var inquiries: seq<ContactInquiry>

    constructor ()
      ensures inquiries == []
    {
      inquiries := [];
    }

    /** `fetchInquiries`: a successful select replaces the list, an error keeps it. */
    method Fetch(result: Outcome<seq<ContactInquiry>>)
      modifies this`inquiries
      ensures inquiries == AfterFetch(old(inquiries), result)
    {
      if result.Ok? {
        inquiries := result.rows;
      }
    }

    /**
     * `handleDelete(id)`: the delete is sent only after a confirmed prompt
     * and the returned id is the one sent, if any; only a successful delete
     * refetches, so a failed one leaves the list as it was.
     */
    method Delete(id: string, confirmed: bool, write: WriteOutcome, refetch: Outcome<seq<ContactInquiry>>)
      returns (sent: Option<string>)
      modifies this`inquiries
      ensures sent == if confirmed then Some(id) else None
      ensures inquiries == if confirmed && write.Ok? then AfterFetch(old(inquiries), refetch) else old(inquiries)
    {
      sent := None;
      if confirmed {
        sent := Some(id);
        if write.Ok? {
          Fetch(refetch);
        }
      }
    }

    function View(): Listing
      reads this
    {
      ListingOf(inquiries)
    }
  }

  /** The component mounting: an empty list, with the initial fetch applied. */
  method Mount(fetched: Outcome<seq<ContactInquiry>>) returns (v: Viewer)
    ensures fresh(v) && v.inquiries == AfterFetch([], fetched)
  {
    v := new Viewer();
    v.Fetch(fetched);
  }
}
