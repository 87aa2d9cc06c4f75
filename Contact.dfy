/**
 * The contact form. Submitting opens a messaging link carrying a message
 * composed from the form, then stores the inquiry; the stored outcome
 * decides between the thank-you note with a cleared form and the error
 * note with the form kept. The handler is split at its one `await`:
 * `BeginSubmit` runs up to the insert, `FinishSubmit` from its answer on.
 */
module Contact {
  import opened Backend
  import UriComponent

  datatype Status = Idle | Success | Error

  datatype ContactForm = ContactForm(
    name: string,
    email: string,
    phone: string,
    message: string,
    viaWhatsApp: bool)

  /** The initial form, and the one left after a successful submit. */
  const EmptyForm: ContactForm := ContactForm("", "", "", "", true)

  /** The row inserted into `contact_inquiries`. */
  datatype InquiryInsert = InquiryInsert(
    name: string,
    email: string,
    phone: string,
    message: string,
    via_whatsapp: bool)

  const WhatsAppBase: string := "https://wa.me/919840650939?text="

  /** The message template, before encoding. */
  function ComposeMessage(f: ContactForm): string
  {
    "Hello! I'm " + f.name + ".\n\nEmail: " + f.email + "\nPhone: " + f.phone + "\n\nMessage: " + f.message
  }

  /** The link opened on submit: the composed message, percent-encoded, as the `text` parameter. */
  function WhatsAppLink(f: ContactForm): (r: string)
    ensures |r| >= |WhatsAppBase| && r[..|WhatsAppBase|] == WhatsAppBase
    ensures UriComponent.Decode(r[|WhatsAppBase|..]) == Some(ComposeMessage(f))
  {
    UriComponent.DecodeEncode(ComposeMessage(f));
    var r := WhatsAppBase + UriComponent.Encode(ComposeMessage(f));
    assert r[|WhatsAppBase|..] == UriComponent.Encode(ComposeMessage(f));
    r
  }

  /** The four text fields as typed; the checkbox is ignored and the flag is always set. */
  function InsertFor(f: ContactForm): (r: InquiryInsert)
    ensures r.via_whatsapp
    ensures r.name == f.name && r.email == f.email && r.phone == f.phone && r.message == f.message
  {
    InquiryInsert(f.name, f.email, f.phone, f.message, true)
  }

  /** The checkbox changes neither the stored row nor the opened link. */
  lemma CheckboxIgnored(f: ContactForm, b: bool)
    ensures InsertFor(f.(viaWhatsApp := b)) == InsertFor(f)
    ensures WhatsAppLink(f.(viaWhatsApp := b)) == WhatsAppLink(f)
  {
  }

  /** Different messages always give different links. */
  lemma LinkDeterminesMessage(f: ContactForm, g: ContactForm)
    requires WhatsAppLink(f) == WhatsAppLink(g)
    ensures ComposeMessage(f) == ComposeMessage(g)
  {
    UriComponent.EncodeInjective(ComposeMessage(f), ComposeMessage(g));
  }

  class ContactSection {
    var formData: ContactForm
    var isSubmitting: bool
    var submitStatus: Status

    constructor ()
      ensures formData == EmptyForm && !isSubmitting && submitStatus == Idle
    {
      formData := EmptyForm;
      isSubmitting := false;
      submitStatus := Idle;
    }

    /** A field's or the checkbox's `onChange`. */
    method Edit(f: ContactForm)
      modifies this`formData
      ensures formData == f
    {
      formData := f;
    }

    /**
     * Up to the insert: "Sending..." on, the status note cleared, the link
     * opened, and the row sent. The form is left as it is. Submitting is
     * blocked while a submit is under way, through the disabled button.
     */
    method BeginSubmit() returns (link: string, record: InquiryInsert)
      requires !isSubmitting
      modifies this`isSubmitting, this`submitStatus
      ensures isSubmitting && submitStatus == Idle
      ensures link == WhatsAppLink(formData) && record == InsertFor(formData)
    {
      isSubmitting := true;
      submitStatus := Idle;
      link := WhatsAppLink(formData);
      record := InsertFor(formData);
    }

    /**
     * From the insert's answer on: success clears the form and shows the
     * thank-you note; an error keeps the form and shows the error note;
     * either way "Sending..." goes off.
     */
    method FinishSubmit(insert: WriteOutcome)
      requires isSubmitting
      modifies this`formData, this`isSubmitting, this`submitStatus
      ensures !isSubmitting
      ensures insert.Ok? ==> submitStatus == Success && formData == EmptyForm
      ensures insert.Err? ==> submitStatus == Error && formData == old(formData)
    {
      if insert.Ok? {
        submitStatus := Success;
        formData := EmptyForm;
      } else {
        submitStatus := Error;
      }
      isSubmitting := false;
    }
  }

  /**
   * The whole handler: the link is opened and the row built from the form
   * as it was when submitted, whatever the insert's answer.
   */
  method Submit(c: ContactSection, insert: WriteOutcome) returns (link: string, record: InquiryInsert)
    requires !c.isSubmitting
    modifies c
    ensures link == WhatsAppLink(old(c.formData)) && record == InsertFor(old(c.formData))
    ensures !c.isSubmitting
    ensures insert.Ok? ==> c.submitStatus == Success && c.formData == EmptyForm
    ensures insert.Err? ==> c.submitStatus == Error && c.formData == old(c.formData)
  {
    link, record := c.BeginSubmit();
    c.FinishSubmit(insert);
  }
}
