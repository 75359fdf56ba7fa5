/** The admin categories page (src/app/admin/categorias/page.tsx): a form with
    a name and one uploaded image, a preview of that image, the list of
    categories, and add and delete handlers. The server's answers and the
    browser's confirmation dialog are parameters. */
module CategoriesAdmin {
  import opened Common

  datatype Category = Category(id: string, name: string, image: string)
  /** The form: `{ name, image: string | null }`. */
  datatype Draft = Draft(name: string, image: Option<string>)

  const EmptyDraft: Draft := Draft("", None)
  const MissingFields: string := "Preencha todos os campos e envie uma imagem."
  const Created: string := "Categoria criada com sucesso!"
  const CreateFailed: string := "Erro ao criar categoria."
  const Deleted: string := "Categoria excluída com sucesso!"
  const DeleteFailed: string := "Erro ao excluir categoria."

  /** `newCategory.name && newCategory.image`: both present and non-empty. */
  predicate CanSubmit(draft: Draft)
  {
    draft.name != "" && draft.image.Some? && draft.image.value != ""
  }

  /** `prev.filter((category) => category._id !== id)`. */
  function WithoutId(categories: seq<Category>, id: string): (r: seq<Category>)
    ensures forall i :: 0 <= i < |r| ==> r[i].id != id
    ensures forall i :: 0 <= i < |categories| && categories[i].id != id ==> categories[i] in r
    ensures forall c: Category :: c.id != id ==> multiset(r)[c] == multiset(categories)[c]
    ensures IsSubsequence(r, categories)
  {
    FilterIsSubsequence(categories, (c: Category) => c.id != id);
    FilterCountsAll(categories, (c: Category) => c.id != id);
    Filter(categories, (c: Category) => c.id != id)
  }

  /** An add request's outcome: the created category, or a failure. */
  datatype AddResponse = Saved(category: Category) | SaveError

  class CategoriesPage {
    var categories: seq<Category>
    var newCategory: Draft
    var imagePreview: Option<string>
    var isLoading: bool

    /** The preview shows the form's image until the next successful add. */
    ghost predicate PreviewMatches()
      reads this
    {
      imagePreview == newCategory.image
    }

    constructor ()
      ensures categories == [] && newCategory == EmptyDraft && imagePreview == None && !isLoading
      ensures PreviewMatches()
    {
      categories := [];
      newCategory := EmptyDraft;
      imagePreview := None;
      isLoading := false;
    }

    method Load(response: Option<seq<Category>>)
      modifies this
      ensures categories == (if response.Some? then response.value else old(categories))
      ensures newCategory == old(newCategory) && imagePreview == old(imagePreview) && isLoading == old(isLoading)
    {
      if response.Some? {
        categories := response.value;
      }
    }

    method SetName(name: string)
      modifies this
      ensures newCategory == old(newCategory).(name := name)
      ensures categories == old(categories) && imagePreview == old(imagePreview) && isLoading == old(isLoading)
      ensures old(PreviewMatches()) ==> PreviewMatches()
    {
      newCategory := newCategory.(name := name);
    }

    /** The `FileReader` completion: form image and preview get the same data URL. */
    method ImageLoaded(dataUrl: string)
      modifies this
      ensures newCategory == old(newCategory).(image := Some(dataUrl))
      ensures imagePreview == Some(dataUrl) && PreviewMatches()
      ensures categories == old(categories) && isLoading == old(isLoading)
    {
      newCategory := newCategory.(image := Some(dataUrl));
      imagePreview := Some(dataUrl);
    }

    /** `handleAddCategory`: returns the alert and the draft posted, if any. */
    method AddCategory(response: AddResponse) returns (alert: string, posted: Option<Draft>)
      modifies this
      ensures !old(CanSubmit(newCategory)) ==> alert == MissingFields && posted == None && unchanged(this)
      ensures old(CanSubmit(newCategory)) ==> posted == Some(old(newCategory)) && !isLoading
      ensures old(CanSubmit(newCategory)) && response.Saved? ==>
        && alert == Created && categories == old(categories) + [response.category]
        && newCategory == EmptyDraft && imagePreview == None && PreviewMatches()
      ensures old(CanSubmit(newCategory)) && response.SaveError? ==>
        && alert == CreateFailed && categories == old(categories)
        && newCategory == old(newCategory) && imagePreview == old(imagePreview)
    {
      if !CanSubmit(newCategory) {
        return MissingFields, None;
      }
      isLoading := true;
      posted := Some(newCategory);
      if response.SaveError? {
        alert := CreateFailed;
      } else {
        alert := Created;
        categories := categories + [response.category];
        newCategory := EmptyDraft;
        imagePreview := None;
      }
      isLoading := false;
    }

    /** `handleDeleteCategory(id)`: nothing without confirmation; returns the
        alert shown, if any. */
    method DeleteCategory(id: string, confirmed: bool, responseOk: bool) returns (alert: Option<string>)
      modifies this
      ensures !confirmed ==> alert == None && categories == old(categories)
      ensures confirmed && responseOk ==> alert == Some(Deleted) && categories == WithoutId(old(categories), id)
      ensures confirmed && !responseOk ==> alert == Some(DeleteFailed) && categories == old(categories)
      ensures newCategory == old(newCategory) && imagePreview == old(imagePreview) && isLoading == old(isLoading)
    {
      if !confirmed {
        return None;
      }
      if !responseOk {
        return Some(DeleteFailed);
      }
      categories := WithoutId(categories, id);
      alert := Some(Deleted);
    }
  }
}
