/**
 * The editing state machine that the four admin managers (blog posts,
 * testimonials, gallery images, menu items) each implement with the same
 * handlers over the same four pieces of state: the fetched rows, whether
 * the form is open (`isAddingNew`), the id being edited (`editingId`) and
 * the form contents (`formData`). What differs between the managers is
 * supplied as functions: the empty form, how a row fills the form, what
 * a submitted form writes, and a row's id.
 */
module ContentEditor {
  import opened Backend

  /** The write a submit sends to the backend. */
  datatype Request<F> = Update(id: string, payload: F) | Insert(payload: F)

  /** What the manager shows: no form, a blank "new" form, or a form editing one row. */
  datatype Mode = Closed | Creating | Editing(id: string)

  /** `if (editingId) update(...).eq('id', editingId) else insert([...])`. */
  function RequestFor<F>(editingId: Option<string>, payload: F): (r: Request<F>)
    ensures r.Update? <==> Truthy(editingId)
    ensures r.Update? ==> r.id == editingId.value
    ensures r.payload == payload
  {
    if Truthy(editingId) then Update(editingId.value, payload) else Insert(payload)
  }

  /**
   * The form is rendered only while `isAddingNew` holds; its button reads
   * "Update" when `editingId` is truthy and "Publish"/"Save" otherwise.
   */
  function ModeOf(isAddingNew: bool, editingId: Option<string>): (m: Mode)
    ensures m.Closed? <==> !isAddingNew
    ensures m.Editing? <==> isAddingNew && Truthy(editingId)
    ensures m.Editing? ==> m.id == editingId.value
  {
    if !isAddingNew then Closed
    else if Truthy(editingId) then Editing(editingId.value)
    else Creating
  }

  class Editor<R, F> {
    var rows: seq<R>
    var isAddingNew: bool
    var editingId: Option<string>
    var formData: F

    const emptyForm: F
    const idOf: R -> string
    const formOf: R -> F
    const payloadOf: F -> F

    /** A row is only ever being edited while the form is open. */
    ghost predicate Valid()
      reads this
    {
      Truthy(editingId) ==> isAddingNew
    }

    function Mode(): Mode
      reads this
    {
      ModeOf(isAddingNew, editingId)
    }

    /** The component's initial state: no rows, form closed, nothing edited, empty form. */
    constructor (emptyForm: F, idOf: R -> string, formOf: R -> F, payloadOf: F -> F)
      ensures rows == [] && !isAddingNew && editingId == None && formData == emptyForm
      ensures this.emptyForm == emptyForm && this.idOf == idOf
      ensures this.formOf == formOf && this.payloadOf == payloadOf
      ensures Valid() && Mode() == Closed
    {
      rows := [];
      isAddingNew := false;
      editingId := None;
      formData := emptyForm;
      this.emptyForm := emptyForm;
      this.idOf := idOf;
      this.formOf := formOf;
      this.payloadOf := payloadOf;
    }

    /** The list fetch: rows are replaced on success and kept on error. */
    method Fetch(result: Outcome<seq<R>>)
      modifies this`rows
      ensures rows == AfterFetch(old(rows), result)
    {
      if result.Ok? {
        rows := result.rows;
      }
    }

    /** `resetForm`: the form goes back to its initial contents. */
    method ResetForm()
      modifies this`formData
      ensures formData == emptyForm
    {
      formData := emptyForm;
    }

    /** A field's `onChange`: the form takes the edited contents. */
    method SetForm(f: F)
      modifies this`formData
      ensures formData == f
    {
      formData := f;
    }

    /**
     * The header button ("New"/"Cancel"): opens or closes the form, and
     * in both directions forgets the edited row and blanks the form.
     */
    method Toggle()
      requires Valid()
      modifies this`isAddingNew, this`editingId, this`formData
      ensures isAddingNew == !old(isAddingNew) && editingId == None && formData == emptyForm
      ensures Valid()
      ensures Mode() == if old(isAddingNew) then Closed else Creating
    {
      isAddingNew := !isAddingNew;
      editingId := None;
      ResetForm();
    }

    /** `handleEdit(row)`: edit that row, with the form filled from it and open. */
    method Edit(row: R)
      modifies this`isAddingNew, this`editingId, this`formData
      ensures editingId == Some(idOf(row)) && formData == formOf(row) && isAddingNew
      ensures Valid()
      ensures idOf(row) != "" ==> Mode() == Editing(idOf(row))
    {
      editingId := Some(idOf(row));
      formData := formOf(row);
      isAddingNew := true;
    }

    /**
     * `handleSubmit`: issues an update keyed by the edited id when there is
     * one and an insert otherwise. `write` is the backend's answer to that
     * call and `refetch` the answer to the list fetch started on success.
     * A failed write changes nothing. A successful update blanks the form
     * and forgets the id but leaves the form open, now as a blank "new"
     * form; a successful insert closes the form.
     */
    method Submit(write: WriteOutcome, refetch: Outcome<seq<R>>) returns (req: Request<F>)
      requires Valid()
      modifies this`rows, this`isAddingNew, this`editingId, this`formData
      ensures req == RequestFor(old(editingId), payloadOf(old(formData)))
      ensures write.Err? ==>
        && rows == old(rows) && isAddingNew == old(isAddingNew)
        && editingId == old(editingId) && formData == old(formData)
      ensures write.Ok? ==> rows == AfterFetch(old(rows), refetch) && formData == emptyForm
      ensures write.Ok? && req.Update? ==> editingId == None && isAddingNew == old(isAddingNew)
      ensures write.Ok? && req.Insert? ==> editingId == old(editingId) && !isAddingNew
      ensures write.Ok? && old(Mode()).Editing? ==> Mode() == Creating
      ensures write.Ok? && old(Mode()) == Creating ==> Mode() == Closed
      ensures Valid()
    {
      req := RequestFor(editingId, payloadOf(formData));
      if req.Update? {
        if write.Ok? {
          Fetch(refetch);
          editingId := None;
          ResetForm();
        }
      } else {
        if write.Ok? {
          Fetch(refetch);
          isAddingNew := false;
          ResetForm();
        }
      }
    }

    /**
     * `handleDelete(id)`: the delete is sent only after a confirmed prompt;
     * the returned id is the one sent, if any. Only a successful delete
     * refetches the list.
     */
    method Delete(id: string, confirmed: bool, write: WriteOutcome, refetch: Outcome<seq<R>>)
      returns (sent: Option<string>)
      modifies this`rows
      ensures sent == if confirmed then Some(id) else None
      ensures rows == if confirmed && write.Ok? then AfterFetch(old(rows), refetch) else old(rows)
    {
      sent := None;
      if confirmed {
        sent := Some(id);
        if write.Ok? {
          Fetch(refetch);
        }
      }
    }
  }
}
