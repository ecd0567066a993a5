/**
 * The categories administration page: the list query, the availability switch and
 * the edit dialog. The pager is `Pagination.CanPrev`/`CanNext` with
 * `Pagination.CategoriesPagerShown`; the badge colour is `CategoryColor.ColorFor`
 * over `CategoryColor.PastelPalette`; failures show `Json.ErrorMessage`.
 */
module Categories {
  import opened Wrappers
  import opened JsText
  import opened Domain
  import opened QueryParams

  const LoadFailed := "Ошибка загрузки категорий"
  const ToggleFailed := "Не удалось изменить доступность"
  const UpdateFailed := "Ошибка обновления категории"

  /** The list query: `page`, `size` and `availability` always, `name` only for a non-blank search. */
  datatype CategoryQuery = CategoryQuery(page: int, size: int, availability: bool, name: Option<string>)

  function CategoryQueryOf(page: int, size: int, onlyAvailable: bool, searchName: string): (r: CategoryQuery)
    ensures r.page == page && r.size == size && r.availability == onlyAvailable
    ensures r.name.Some? <==> !AllWhiteSpace(searchName)
    ensures r.name.Some? ==> r.name.value == Trim(searchName)
  {
    CategoryQuery(page, size, onlyAvailable, SearchParam(searchName))
  }

  /** `toggleAvailability`: the request asks for the opposite of the category's state. */
  function ToggleAvailability(c: Category): (r: (int, bool))
    ensures r.0 == c.id && r.1 == !c.isActive
  {
    (c.id, !c.isActive)
  }

  /** Switching a category whose state the request set asks for its first state again. */
  lemma ToggleAvailabilityTwice(c: Category)
    ensures ToggleAvailability(c.(isActive := ToggleAvailability(c).1)) == (c.id, c.isActive)
  {
  }

  datatype EditForm = EditForm(name: string, description: string)

  /** `openEdit`: the name as it is, and `description || ''`. */
  function OpenEdit(c: Category): (r: EditForm)
    ensures r.name == c.name
    ensures c.description.Some? ==> r.description == c.description.value
    ensures c.description.None? ==> r.description == ""
  {
    EditForm(c.name, if c.description.Some? then c.description.value else "")
  }

  /** `doUpdate`: nothing without a category being edited; otherwise its id with the form. */
  function DoUpdate(editing: Option<Category>, form: EditForm): (r: Option<(int, EditForm)>)
    ensures r.Some? <==> editing.Some?
    ensures r.Some? ==> r.value == (editing.value.id, form)
  {
    if editing.None? then None else Some((editing.value.id, form))
  }

  /**
   * Saving the dialog untouched sends the category's own name, and a missing
   * description as ''.
   */
  lemma UntouchedEditSendsCategory(c: Category)
    ensures DoUpdate(Some(c), OpenEdit(c)).value.1.name == c.name
    ensures c.description.None? ==> DoUpdate(Some(c), OpenEdit(c)).value.1.description == ""
    ensures c.description.Some? ==> DoUpdate(Some(c), OpenEdit(c)).value.1.description == c.description.value
  {
  }
}
