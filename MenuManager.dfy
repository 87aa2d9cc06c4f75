/**
 * The menu-item manager: the content editor over `menu_items`,
 * with a category select offering the three menu categories.
 */
module MenuManager {
  import opened Backend
  import opened Supabase
  import opened ContentEditor

  /** The four fields the form edits. */
  datatype ItemForm = ItemForm(
    name: string,
    description: string,
    category: MenuCategory,
    image_url: string)

  /** The initial form, and what `resetForm` restores: empty strings, category "Vegetarian". */
  const EmptyForm: ItemForm := ItemForm("", "", Vegetarian, "")

  function ItemId(item: MenuItem): string
  {
    item.id
  }

  /** `handleEdit`'s copy of an item into the form. */
  function FormOf(item: MenuItem): ItemForm
  {
    ItemForm(item.name, item.description, item.category, item.image_url)
  }

  /** `update(formData)` / `insert([formData])`: the form is written as it is. */
  function Payload(f: ItemForm): ItemForm
  {
    f
  }

  /** The stored item after an update with the submitted fields. */
  function Patched(item: MenuItem, f: ItemForm): (r: MenuItem)
    ensures r.id == item.id && r.created_at == item.created_at
    ensures FormOf(r) == f
  {
    item.(name := f.name, description := f.description, category := f.category, image_url := f.image_url)
  }

  /** Saving an item unchanged writes it back exactly as it was. */
  lemma UnchangedEditWritesBack(item: MenuItem)
    ensures Patched(item, Payload(FormOf(item))) == item
  {
  }

  /** The `<option>` values of the category select, in order. */
  function CategoryOptions(): (r: seq<string>)
    ensures |r| == |MenuCategories|
  {
    seq(|MenuCategories|, i requires 0 <= i < |MenuCategories| =>
      MenuCategoryName(MenuCategories[i]))
  }

  /** The select offers each of the three categories, once each, under its stored name. */
  lemma CategoryOptionsExact(c: MenuCategory)
    ensures MenuCategoryName(c) in CategoryOptions()
    ensures forall i :: 0 <= i < |CategoryOptions()| ==>
      ParseMenuCategory(CategoryOptions()[i]) == Some(MenuCategories[i])
    ensures forall i, j :: 0 <= i < j < |CategoryOptions()| ==> CategoryOptions()[i] != CategoryOptions()[j]
  {
    MenuCategoriesComplete(c);
    var k :| 0 <= k < |MenuCategories| && MenuCategories[k] == c;
    assert CategoryOptions()[k] == MenuCategoryName(c);
    forall i | 0 <= i < |CategoryOptions()|
      ensures ParseMenuCategory(CategoryOptions()[i]) == Some(MenuCategories[i])
    {
      MenuCategoryRoundTrip(MenuCategories[i]);
    }
    forall i, j | 0 <= i < j < |CategoryOptions()|
      ensures CategoryOptions()[i] != CategoryOptions()[j]
    {
      MenuCategoryNameInjective(MenuCategories[i], MenuCategories[j]);
    }
  }

  /** Choosing an option: the form takes the category named by it and nothing else changes. */
  function ChooseCategory(f: ItemForm, option: string): (r: ItemForm)
    requires option in CategoryOptions()
    ensures MenuCategoryName(r.category) == option
    ensures r.(category := f.category) == f
  {
    var i :| 0 <= i < |CategoryOptions()| && CategoryOptions()[i] == option;
    f.(category := MenuCategories[i])
  }

  /** The component mounting: a fresh editor, with the initial list fetch applied. */
  method Mount(fetched: Outcome<seq<MenuItem>>) returns (e: Editor<MenuItem, ItemForm>)
    ensures fresh(e) && e.Valid() && e.Mode() == Closed
    ensures e.rows == AfterFetch([], fetched) && e.formData == EmptyForm
    ensures e.emptyForm == EmptyForm && e.idOf == ItemId
    ensures e.formOf == FormOf && e.payloadOf == Payload
  {
    e := new Editor(EmptyForm, ItemId, FormOf, Payload);
    e.Fetch(fetched);
  }
}
